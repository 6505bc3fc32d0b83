/**
  `lioQuality`: maps the largest of three spreads to an integer score from 0
  (spread at or beyond `qMax`) to 100 (spread at or below `qMin`).
*/
module Quality {
  import opened Numeric

  /** The largest of three values (`std::max` over an initializer list). */
  function Max3(a: real, b: real, c: real): (m: real)
    ensures m >= a && m >= b && m >= c
    ensures m == a || m == b || m == c
  {
    if a >= b && a >= c then a else if b >= c then b else c
  }

  /** The score's configuration; both bounds default to 0. */
  datatype LioQuality = LioQuality(qMin: real, qMax: real) {

    /** The spread's position between the bounds: 0 at `qMin`, 1 at `qMax`. */
    function Normalized(spread: real): real
      requires qMax != qMin
    {
      (spread - qMin) / (qMax - qMin)
    }

    /** `calc(sx, sy, sz)`: the quality score of the largest spread. */
    function Calc(sx: real, sy: real, sz: real): (q: int)
      requires qMax != qMin
      ensures 0 <= q <= 100
    {
      var qualityF := Normalized(Max3(sx, sy, sz));
      if qualityF < 0.0 then 100 else if qualityF > 1.0 then 0 else Trunc(100.0 - qualityF * 100.0)
    }
  }

  /** Only the largest spread matters, so the order of the three arguments does not. */
  lemma CalcSymmetric(c: LioQuality, sx: real, sy: real, sz: real)
    requires c.qMax != c.qMin
    ensures c.Calc(sx, sy, sz) == c.Calc(sy, sx, sz) == c.Calc(sx, sz, sy)
    ensures c.Calc(sx, sy, sz) == c.Calc(sy, sz, sx) == c.Calc(sz, sx, sy) == c.Calc(sz, sy, sx)
    ensures c.Calc(sx, sy, sz) == c.Calc(Max3(sx, sy, sz), Max3(sx, sy, sz), Max3(sx, sy, sz))
  {
    var m := Max3(sx, sy, sz);
    assert Max3(sy, sx, sz) == m && Max3(sx, sz, sy) == m;
    assert Max3(sy, sz, sx) == m && Max3(sz, sx, sy) == m && Max3(sz, sy, sx) == m;
    assert Max3(m, m, m) == m;
  }

  /** A largest spread at or below `qMin` scores 100. */
  lemma CalcAtOrBelowMin(c: LioQuality, sx: real, sy: real, sz: real)
    requires c.qMax > c.qMin && Max3(sx, sy, sz) <= c.qMin
    ensures c.Calc(sx, sy, sz) == 100
  {
    var f := c.Normalized(Max3(sx, sy, sz));
    assert f <= 0.0;
    if f == 0.0 {
      TruncOfInt(100);
    }
  }

  /** A largest spread at or above `qMax` scores 0. */
  lemma CalcAtOrAboveMax(c: LioQuality, sx: real, sy: real, sz: real)
    requires c.qMax > c.qMin && Max3(sx, sy, sz) >= c.qMax
    ensures c.Calc(sx, sy, sz) == 0
  {
    var f := c.Normalized(Max3(sx, sy, sz));
    assert f >= 1.0;
    if f == 1.0 {
      TruncOfInt(0);
    }
  }

  /**
    Between the bounds the score is `100 - 100 * normalized` truncated, not
    rounded: it is the largest whole number not above that value.
  */
  lemma CalcInterior(c: LioQuality, sx: real, sy: real, sz: real)
    requires c.qMax != c.qMin
    requires 0.0 <= c.Normalized(Max3(sx, sy, sz)) <= 1.0
    ensures var f := c.Normalized(Max3(sx, sy, sz));
      c.Calc(sx, sy, sz) as real <= 100.0 - 100.0 * f < c.Calc(sx, sy, sz) as real + 1.0
  {
  }

  /** The spread halfway between the bounds scores 50. */
  lemma CalcMidpoint(c: LioQuality)
    requires c.qMax != c.qMin
    ensures var mid := (c.qMin + c.qMax) / 2.0; c.Calc(mid, mid, mid) == 50
  {
    var mid := (c.qMin + c.qMax) / 2.0;
    assert Max3(mid, mid, mid) == mid;
    var d := c.qMax - c.qMin;
    assert mid - c.qMin == 0.5 * d;
    assert (0.5 * d) / d == 0.5;
    assert c.Normalized(mid) == 0.5;
    TruncOfInt(50);
  }

  /** A larger largest spread never scores higher. */
  lemma CalcMonotone(c: LioQuality, sx: real, sy: real, sz: real, tx: real, ty: real, tz: real)
    requires c.qMax > c.qMin
    requires Max3(sx, sy, sz) <= Max3(tx, ty, tz)
    ensures c.Calc(sx, sy, sz) >= c.Calc(tx, ty, tz)
  {
    var f := c.Normalized(Max3(sx, sy, sz));
    var g := c.Normalized(Max3(tx, ty, tz));
    var d := c.qMax - c.qMin;
    assert Max3(sx, sy, sz) - c.qMin <= Max3(tx, ty, tz) - c.qMin;
    assert f <= g by {
      assert f * d == Max3(sx, sy, sz) - c.qMin;
      assert g * d == Max3(tx, ty, tz) - c.qMin;
    }
    if 0.0 <= f && g <= 1.0 {
      TruncMonotone(100.0 - g * 100.0, 100.0 - f * 100.0);
    }
  }
}
