/**
  The moving-average smoother `Movmean`: a ring buffer of `siz` samples with a
  write cursor and a running sum.

  The running sum is updated incrementally, except when the cursor is at slot 0:
  there it is recomputed as the full sum of the buffer, and that recomputation
  happens before the new sample is stored and does not add it. The sum thus
  carries the offset `z - arr[0]`, where `z` is what slot 0 held just before
  the latest write at the cursor 0 (0 before any write). `Tracks` states this.

  The pure part (`Window`, `Step`, `Feed`) specifies one update and a run of
  updates; the class `Movmean` is the in-place implementation over an array.
*/
module Smoothing {

  /** Largest capacity a `uint16_t` can hold. */
  const MaxCapacity: nat := 65535

  /** Sum of the samples (as `std::accumulate` with a zero seed). */
  function Sum(s: seq<real>): (r: real)
    ensures (forall k :: 0 <= k < |s| ==> 0.0 <= s[k]) ==> 0.0 <= r
  {
    if |s| == 0 then 0.0 else s[0] + Sum(s[1..])
  }

  /** `n` zero samples, the contents of a new buffer. */
  function Zeros(n: nat): seq<real>
  {
    seq(n, _ => 0.0)
  }

  lemma {:induction false} SumZeros(n: nat)
    ensures Sum(Zeros(n)) == 0.0
  {
    if n > 0 {
      assert Zeros(n)[1..] == Zeros(n - 1);
      SumZeros(n - 1);
    }
  }

  /** Overwriting one sample changes the sum by the difference. */
  lemma {:induction false} SumUpdate(s: seq<real>, k: nat, v: real)
    requires k < |s|
    ensures Sum(s[k := v]) == Sum(s) - s[k] + v
  {
    if k == 0 {
      assert s[k := v][1..] == s[1..];
    } else {
      SumUpdate(s[1..], k - 1, v);
      assert s[k := v][1..] == s[1..][k - 1 := v];
    }
  }

  /** Appending one sample adds it to the sum. */
  lemma {:induction false} SumSnoc(s: seq<real>, v: real)
    ensures Sum(s + [v]) == Sum(s) + v
  {
    if |s| > 0 {
      assert (s + [v])[1..] == s[1..] + [v];
      SumSnoc(s[1..], v);
    } else {
      assert s + [v] == [v];
    }
  }

  /** The observable state of a smoother: buffer, running sum, cursor. */
  datatype Window = Window(buf: seq<real>, sum: real, cursor: nat)

  /** A buffer of at least one and at most `uint16_t`-many slots, cursor on a slot. */
  predicate WellFormed(w: Window)
  {
    1 <= |w.buf| <= MaxCapacity && w.cursor < |w.buf|
  }

  /** The value `update` returns for the state it leaves: `sum / siz`. */
  function Mean(w: Window): real
    requires |w.buf| > 0
  {
    w.sum / |w.buf| as real
  }

  /**
    The running sum is the buffer's sum with slot 0 replaced by `z`:
    `sum == Sum(buf) - buf[0] + z`.
  */
  predicate Tracks(w: Window, z: real)
  {
    |w.buf| > 0 && w.sum == Sum(w.buf) - w.buf[0] + z
  }

  /** The state the constructor leaves: `siz` zeros, sum 0, cursor 0. */
  function Fresh(siz: nat): (w: Window)
    requires 1 <= siz <= MaxCapacity
    ensures WellFormed(w) && |w.buf| == siz && w.cursor == 0
    ensures Tracks(w, 0.0) && Sum(w.buf) == 0.0 && w.sum == 0.0
    ensures forall j :: 0 <= j < siz ==> w.buf[j] == 0.0
  {
    SumZeros(siz);
    Window(Zeros(siz), 0.0, 0)
  }

  /** The cursor after a write at slot `c` of `n`: one further, wrapping to 0. */
  function Advance(c: nat, n: nat): (r: nat)
    requires c < n
    ensures r < n && r == (c + 1) % n
  {
    if c + 1 == n then 0 else c + 1
  }

  /** One call of `update(val)`, as written. */
  function Step(w: Window, val: real): (r: Window)
    requires WellFormed(w)
    ensures WellFormed(r) && |r.buf| == |w.buf|
    ensures r.cursor == (w.cursor + 1) % |w.buf|
    ensures r.buf[w.cursor] == val
    ensures forall j :: 0 <= j < |w.buf| && j != w.cursor ==> r.buf[j] == w.buf[j]
  {
    var sum := if w.cursor == 0 then Sum(w.buf) else w.sum - w.buf[w.cursor] + val;
    Window(w.buf[w.cursor := val], sum, Advance(w.cursor, |w.buf|))
  }

  /**
    Every update keeps the offset invariant; a write at cursor 0 replaces the
    tracked slot-0 value `z` by what slot 0 held before the write.
  */
  lemma StepKeepsOffset(w: Window, val: real, z: real)
    requires WellFormed(w) && Tracks(w, z)
    ensures Tracks(Step(w, val), if w.cursor == 0 then w.buf[0] else z)
  {
    SumUpdate(w.buf, w.cursor, val);
  }

  /**
    At cursor 0 the returned mean is the exact mean of the buffer before the
    write, whatever the running sum was; the new sample is not in it.
  */
  lemma WrapReturnsPreviousMean(w: Window, val: real)
    requires WellFormed(w) && w.cursor == 0
    ensures Mean(Step(w, val)) == Sum(w.buf) / |w.buf| as real
    ensures Step(w, val).sum == Sum(Step(w, val).buf) - val + w.buf[0]
  {
    SumUpdate(w.buf, 0, val);
  }

  /** A run of updates, oldest sample first. */
  function Feed(w: Window, vals: seq<real>): (r: Window)
    requires WellFormed(w)
    ensures WellFormed(r) && |r.buf| == |w.buf|
    decreases |vals|
  {
    if vals == [] then w else Step(Feed(w, vals[..|vals| - 1]), vals[|vals| - 1])
  }

  /**
    Fed non-negative samples, the smoother never goes negative: every slot, the
    tracked value `z` and hence the running sum and the returned mean stay
    non-negative, the offset of the running sum notwithstanding.
  */
  lemma {:induction false} FeedNonNegative(siz: nat, vals: seq<real>) returns (z: real)
    requires 1 <= siz <= MaxCapacity
    requires forall k :: 0 <= k < |vals| ==> 0.0 <= vals[k]
    ensures 0.0 <= z && Tracks(Feed(Fresh(siz), vals), z)
    ensures forall j :: 0 <= j < siz ==> 0.0 <= Feed(Fresh(siz), vals).buf[j]
    ensures 0.0 <= Mean(Feed(Fresh(siz), vals))
    decreases |vals|
  {
    var w := Feed(Fresh(siz), vals);
    if vals == [] {
      z := 0.0;
    } else {
      var init := vals[..|vals| - 1];
      var v := vals[|vals| - 1];
      var z0 := FeedNonNegative(siz, init);
      var prev := Feed(Fresh(siz), init);
      StepKeepsOffset(prev, v, z0);
      z := if prev.cursor == 0 then prev.buf[0] else z0;
    }
    var b := w.buf;
    assert Sum(b) == b[0] + Sum(b[1..]);
    assert 0.0 <= Sum(b[1..]);
    assert 0.0 <= w.sum;
  }

  /**
    During the first pass over a new buffer the samples fill the slots in order
    and the running sum holds every sample but the first: the first write at
    cursor 0 recomputed the sum of the all-zero buffer and never added it.
  */
  lemma {:induction false} FirstPass(siz: nat, vals: seq<real>)
    requires 1 <= |vals| <= siz <= MaxCapacity
    ensures Feed(Fresh(siz), vals).buf == vals + Zeros(siz - |vals|)
    ensures Feed(Fresh(siz), vals).sum == Sum(vals) - vals[0]
    ensures Feed(Fresh(siz), vals).cursor == if |vals| == siz then 0 else |vals|
  {
    var k := |vals|;
    var init := vals[..k - 1];
    var v := vals[k - 1];
    assert init + [v] == vals;
    SumSnoc(init, v);
    if k == 1 {
      assert init == [];
      assert Zeros(siz)[0 := v] == vals + Zeros(siz - 1);
    } else {
      FirstPass(siz, init);
      var prev := Feed(Fresh(siz), init);
      assert prev.cursor == k - 1;
      assert prev.buf[k - 1] == 0.0;
      assert prev.buf[k - 1 := v] == vals + Zeros(siz - k);
    }
  }

  /**
    After exactly `siz` samples the returned mean misses the first sample:
    it is `(v2 + ... + vN) / N`, not the mean of `v1 .. vN`.
  */
  lemma FullWindowMean(vals: seq<real>)
    requires 1 <= |vals| <= MaxCapacity
    ensures Mean(Feed(Fresh(|vals|), vals)) == (Sum(vals) - vals[0]) / |vals| as real
  {
    var w := Feed(Fresh(|vals|), vals);
    assert w.sum == Sum(vals) - vals[0] by {
      FirstPass(|vals|, vals);
    }
    MeanMissingFirst(w, vals);
  }

  /** Helper: a window of `|vals|` slots whose sum leaves out `vals[0]`. */
  lemma MeanMissingFirst(w: Window, vals: seq<real>)
    requires 1 <= |vals| <= MaxCapacity && |w.buf| == |vals| && w.sum == Sum(vals) - vals[0]
    ensures Mean(w) == (Sum(vals) - vals[0]) / |vals| as real
  {
  }

  /**
    The sample after a full first pass lands at cursor 0: it returns the exact
    mean of the first `siz` samples and leaves itself out.
  */
  lemma WrapAfterFirstPass(vals: seq<real>, v: real)
    requires 1 <= |vals| <= MaxCapacity
    ensures Mean(Feed(Fresh(|vals|), vals + [v])) == Sum(vals) / |vals| as real
  {
    FirstPass(|vals|, vals);
    assert (vals + [v])[..|vals|] == vals;
    assert Zeros(0) == [];
    assert vals + Zeros(0) == vals;
  }

  /** Capacity 3 fed 10, 20, 30 returns 50/3 (not 20); then 40 returns 20 (not 30). */
  lemma ThreeSampleExample()
    ensures Mean(Feed(Fresh(3), [10.0, 20.0, 30.0])) == 50.0 / 3.0
    ensures Mean(Feed(Fresh(3), [10.0, 20.0, 30.0, 40.0])) == 20.0
  {
    var vals := [10.0, 20.0, 30.0];
    FullWindowMean(vals);
    WrapAfterFirstPass(vals, 40.0);
    assert vals + [40.0] == [10.0, 20.0, 30.0, 40.0];
    assert Sum(vals) == 60.0;
  }

  /** The sum is the exact sum of the buffer. */
  predicate Exact(w: Window)
  {
    w.sum == Sum(w.buf)
  }

  /** One update with the recomputation moved after the write (the corrected `update`). */
  function FixedStep(w: Window, val: real): (r: Window)
    requires WellFormed(w)
    ensures WellFormed(r) && |r.buf| == |w.buf|
    ensures r.cursor == (w.cursor + 1) % |w.buf|
    ensures r.buf == w.buf[w.cursor := val]
  {
    var buf := w.buf[w.cursor := val];
    var sum := if w.cursor == 0 then Sum(buf) else w.sum - w.buf[w.cursor] + val;
    Window(buf, sum, Advance(w.cursor, |w.buf|))
  }

  /** A run of corrected updates, oldest sample first. */
  function FixedFeed(w: Window, vals: seq<real>): (r: Window)
    requires WellFormed(w)
    ensures WellFormed(r) && |r.buf| == |w.buf|
    decreases |vals|
  {
    if vals == [] then w else FixedStep(FixedFeed(w, vals[..|vals| - 1]), vals[|vals| - 1])
  }

  /** The corrected update keeps the running sum exact after any run of samples. */
  lemma {:induction false} FixedFeedExact(w: Window, vals: seq<real>)
    requires WellFormed(w) && Exact(w)
    ensures Exact(FixedFeed(w, vals))
    decreases |vals|
  {
    if vals != [] {
      var prev := FixedFeed(w, vals[..|vals| - 1]);
      FixedFeedExact(w, vals[..|vals| - 1]);
      SumUpdate(prev.buf, prev.cursor, vals[|vals| - 1]);
    }
  }

  /** Capacity 3 fed 10, 20, 30 returns 20; then 40 returns 30. */
  lemma FixedThreeSampleExample()
    ensures Mean(FixedFeed(Fresh(3), [10.0, 20.0, 30.0])) == 20.0
    ensures Mean(FixedFeed(Fresh(3), [10.0, 20.0, 30.0, 40.0])) == 30.0
  {
    var w0 := Fresh(3);
    assert [10.0][..0] == [];
    assert [10.0, 20.0][..1] == [10.0];
    assert [10.0, 20.0, 30.0][..2] == [10.0, 20.0];
    assert [10.0, 20.0, 30.0, 40.0][..3] == [10.0, 20.0, 30.0];
    var w3 := FixedFeed(w0, [10.0, 20.0, 30.0]);
    var w4 := FixedFeed(w0, [10.0, 20.0, 30.0, 40.0]);
    assert FixedFeed(w0, [10.0]).buf == [10.0, 0.0, 0.0];
    assert FixedFeed(w0, [10.0, 20.0]).buf == [10.0, 20.0, 0.0];
    assert w3.buf == [10.0, 20.0, 30.0];
    assert w4.buf == [40.0, 20.0, 30.0];
    FixedFeedExact(w0, [10.0, 20.0, 30.0]);
    FixedFeedExact(w0, [10.0, 20.0, 30.0, 40.0]);
    assert Sum(w3.buf) == 60.0;
    assert Sum(w4.buf) == 90.0;
    assert w3.sum / 3.0 == 20.0;
    assert w4.sum / 3.0 == 30.0;
  }

  /** The smoother object; `Valid` ties its fields to a `Window` satisfying `Tracks`. */
  class Movmean {
    const siz: nat
    const arr: array<real>
    var sum: real
    var i: nat
    /** What slot 0 held just before the latest write at cursor 0 (0 before any). */
    ghost var z: real

    ghost function View(): Window
      reads this, arr
    {
      Window(arr[..], sum, i)
    }

    ghost predicate Valid()
      reads this, arr
    {
      arr.Length == siz && WellFormed(View()) && Tracks(View(), z)
    }

    constructor (siz: nat)
      requires 1 <= siz <= MaxCapacity
      ensures Valid() && fresh(arr)
      ensures View() == Fresh(siz) && z == 0.0
    {
      this.siz := siz;
      arr := new real[siz](_ => 0.0);
      sum := 0.0;
      i := 0;
      z := 0.0;
      new;
      assert arr[..] == Zeros(siz);
      SumZeros(siz);
    }

    method Update(val: real) returns (ret: real)
      requires Valid()
      modifies this, arr
      ensures Valid()
      ensures View() == Step(old(View()), val)
      ensures i == (old(i) + 1) % siz
      ensures arr[..] == old(arr[..])[old(i) := val]
      ensures old(i) != 0 ==> sum == old(sum) - old(arr[i]) + val && z == old(z)
      ensures old(i) == 0 ==> sum == Sum(old(arr[..])) && z == old(arr[0])
      ensures ret == sum / siz as real
    {
      ghost var before := View();
      StepKeepsOffset(before, val, z);
      if i == 0 {
        sum := Sum(arr[..]);
        z := arr[0];
        arr[i] := val;
      } else {
        sum := sum - arr[i];
        arr[i] := val;
        sum := sum + val;
      }
      ret := sum / siz as real;
      i := i + 1;
      if i == siz {
        i := 0;
      }
    }
  }
}
