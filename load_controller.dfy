/**
  `loadController`: feeds processing-time ratios (milliseconds per 1000 points)
  into a `Movmean` smoother and, per cycle, predicts whether the next point
  cloud fits the cycle budget, writing the decision into a `ControlStatus`
  record.

  The smoother's `available()` and `get()` are not part of the modelled
  `Movmean`, so `Predict` receives the availability flag and the smoothed
  ratio from its caller.
*/
module LoadControl {
  import opened Numeric
  import opened Smoothing

  /** The status record; each field is written through the pointer `s` on some path of `predict`. */
  datatype ControlStatus = ControlStatus(
    msPerKptsAve: real,
    predictedProcessTimeRaw: real,
    predictedProcessTimeCtrl: real,
    estimatedOptimPts: int,
    downSizeCoef: real,
    downSizeLimited: bool)

  /** The member initialisers of the status record: -1 everywhere, not limited. */
  const InitialStatus := ControlStatus(-1.0, -1.0, -1.0, -1, -1.0, false)

  /** The point budget: how many points fit into `availableMs` at `ave` ms per 1000 points. */
  function FittingPoints(availableMs: real, ave: real): int
    requires ave != 0.0
  {
    Trunc(availableMs / ave * 1000.0)
  }

  /** Predicted time, in ms, for `points` points at `ave` ms per 1000 points. */
  function TimeFor(ave: real, points: int): real
  {
    ave * points as real / 1000.0
  }

  /** The point count that a percentage `coef` of `pointSize` keeps (truncated). */
  function PointsAt(pointSize: int, coef: real): int
  {
    Trunc(pointSize as real * coef / 100.0)
  }

  /** The downsample percentage that keeps `fitting` of `pointSize` points, before the floor. */
  function UnclampedCoef(fitting: int, pointSize: int): real
    requires pointSize != 0
  {
    fitting as real / pointSize as real * 100.0
  }

  /** Scaling the point count by the unclamped percentage gives back the budget exactly. */
  lemma RecommendedIsFitting(fitting: int, pointSize: int)
    requires pointSize != 0
    ensures Trunc(pointSize as real * UnclampedCoef(fitting, pointSize) / 100.0) == fitting
  {
    var p := pointSize as real;
    assert p * (fitting as real / p * 100.0) / 100.0 == fitting as real;
    TruncOfInt(fitting);
  }

  /**
    With a positive ratio and a non-negative time budget, a point count exceeds
    the budget exactly when its raw predicted time exceeds the available time.
  */
  lemma OverBudgetIffSlow(availableMs: real, ave: real, pointSize: int)
    requires ave > 0.0 && availableMs >= 0.0
    ensures pointSize > FittingPoints(availableMs, ave) <==> ave * pointSize as real / 1000.0 > availableMs
  {
    var x := availableMs / ave * 1000.0;
    var m := FittingPoints(availableMs, ave);
    assert m as real <= x < m as real + 1.0;
    assert ave * x / 1000.0 == availableMs;
    if pointSize > m {
      assert pointSize as real >= m as real + 1.0;
      assert pointSize as real > x;
      assert ave * pointSize as real > ave * x;
    } else {
      assert pointSize as real <= x;
      assert ave * pointSize as real <= ave * x;
    }
  }

  /** Keeping exactly the budget of points takes at most the available time. */
  lemma BudgetTimeFits(availableMs: real, ave: real)
    requires ave > 0.0 && availableMs >= 0.0
    ensures ave * FittingPoints(availableMs, ave) as real / 1000.0 <= availableMs
  {
    var x := availableMs / ave * 1000.0;
    var m := FittingPoints(availableMs, ave);
    assert m as real <= x;
    assert ave * m as real <= ave * x;
    assert ave * x / 1000.0 == availableMs;
  }

  /** Keeping fewer points than offered means a percentage below 100. */
  lemma CoefBelowHundred(fitting: int, pointSize: int)
    requires 0 <= fitting < pointSize
    ensures UnclampedCoef(fitting, pointSize) < 100.0
  {
    var p := pointSize as real;
    assert fitting as real / p < 1.0;
  }

  /**
    What one `predict(pointSize)` call does to the status record `s` and what it
    returns, given the time budget `availableMs` (interval minus slack), the
    coefficient floor `minCoef`, and the smoother's availability and mean.
  */
  function Predicted(s: ControlStatus, availableMs: real, minCoef: real,
                     pointSize: int, available: bool, ave: real): (r: (ControlStatus, bool))
    requires available ==> ave != 0.0
    requires available && pointSize == 0 ==> FittingPoints(availableMs, ave) >= 0
    ensures !available ==> !r.1
    ensures !r.1 ==> r.0.downSizeCoef == 100.0
    ensures r.1 ==> available && pointSize != 0 && r.0.downSizeCoef >= minCoef
  {
    var s1 := s.(downSizeCoef := 100.0);
    if !available then (s1, false)
    else
      var raw := TimeFor(ave, pointSize);
      var s2 := s1.(msPerKptsAve := ave, predictedProcessTimeRaw := raw);
      var excessPts := pointSize - FittingPoints(availableMs, ave);
      if excessPts <= 0 then (s2.(predictedProcessTimeCtrl := raw), false)
      else
        var dsc := UnclampedCoef(pointSize - excessPts, pointSize);
        var limited := dsc < minCoef;
        var coef := if limited then minCoef else dsc;
        var est := PointsAt(pointSize, coef);
        (s2.(downSizeLimited := limited, estimatedOptimPts := est, downSizeCoef := coef,
             predictedProcessTimeCtrl := TimeFor(ave, est)), true)
  }

  /** Without smoother history only the percentage is reset, to 100, and the answer is no. */
  lemma PredictUnavailable(s: ControlStatus, availableMs: real, minCoef: real, pointSize: int, ave: real)
    ensures Predicted(s, availableMs, minCoef, pointSize, false, ave) == (s.(downSizeCoef := 100.0), false)
  {
  }

  /**
    The two "no" answers can leave the same record: here a call without history
    and a call whose cloud fits the budget produce equal status records.
  */
  lemma NoAnswersLookAlike()
    ensures var s := ControlStatus(2.0, 1.0, 1.0, -1, 100.0, false);
      && Predicted(s, 100.0, 0.0, 500, false, 3.0) == (s, false)
      && Predicted(s, 100.0, 0.0, 500, true, 2.0) == (s, false)
  {
    TruncOfInt(50000);
  }

  /**
    With history a "no" answer always leaves the controlled time equal to the
    raw one, so a record where they differ after a "no" comes from a call
    without history.
  */
  lemma MismatchMeansNoHistory(s: ControlStatus, availableMs: real, minCoef: real,
                               pointSize: int, available: bool, ave: real)
    requires available ==> ave != 0.0
    requires available && pointSize == 0 ==> FittingPoints(availableMs, ave) >= 0
    ensures var r := Predicted(s, availableMs, minCoef, pointSize, available, ave);
      !r.1 && r.0.predictedProcessTimeCtrl != r.0.predictedProcessTimeRaw ==> !available
  {
    if !Predicted(s, availableMs, minCoef, pointSize, available, ave).1 {
      PredictNoDownsize(s, availableMs, minCoef, pointSize, available, ave);
    }
  }

  /** A call without history that returns false and leaves a controlled time 5 beside a raw time 1. */
  lemma StaleCtrlExample()
    ensures var s := ControlStatus(2.0, 1.0, 5.0, -1, 100.0, false);
      var r := Predicted(s, 100.0, 0.0, 500, false, 3.0);
      !r.1 && r.0.predictedProcessTimeCtrl == 5.0 && r.0.predictedProcessTimeRaw == 1.0
  {
  }

  /**
    A "no" answer keeps every point: the percentage is 100 and the limit flag
    and recommended count keep their previous values; with history the
    controlled time is the raw time.
  */
  lemma PredictNoDownsize(s: ControlStatus, availableMs: real, minCoef: real,
                          pointSize: int, available: bool, ave: real)
    requires available ==> ave != 0.0
    requires available && pointSize == 0 ==> FittingPoints(availableMs, ave) >= 0
    requires !Predicted(s, availableMs, minCoef, pointSize, available, ave).1
    ensures var r := Predicted(s, availableMs, minCoef, pointSize, available, ave).0;
      && r.downSizeCoef == 100.0
      && r.downSizeLimited == s.downSizeLimited
      && r.estimatedOptimPts == s.estimatedOptimPts
      && (available ==> r.predictedProcessTimeCtrl == r.predictedProcessTimeRaw)
  {
  }

  /**
    With history the mean and the raw prediction are recorded, and the answer is
    yes exactly when the point count exceeds the point budget.
  */
  lemma PredictDecision(s: ControlStatus, availableMs: real, minCoef: real, pointSize: int, ave: real)
    requires ave != 0.0
    requires pointSize == 0 ==> FittingPoints(availableMs, ave) >= 0
    ensures var (r, required) := Predicted(s, availableMs, minCoef, pointSize, true, ave);
      && r.msPerKptsAve == ave
      && r.predictedProcessTimeRaw == ave * pointSize as real / 1000.0
      && (required <==> pointSize > FittingPoints(availableMs, ave))
  {
  }

  /**
    With a positive mean and a non-negative budget, the answer is yes exactly
    when the raw predicted time exceeds the available time.
  */
  lemma PredictIffOverBudget(s: ControlStatus, availableMs: real, minCoef: real, pointSize: int, ave: real)
    requires ave > 0.0 && availableMs >= 0.0
    ensures var (r, required) := Predicted(s, availableMs, minCoef, pointSize, true, ave);
      required <==> r.predictedProcessTimeRaw > availableMs
  {
    OverBudgetIffSlow(availableMs, ave, pointSize);
  }

  /**
    On a "yes" the limit flag says whether the budget's share fell below the
    floor; the percentage is that share raised to the floor; the recommended
    count and the controlled time follow from the percentage.
  */
  lemma PredictDownsize(s: ControlStatus, availableMs: real, minCoef: real,
                        pointSize: int, available: bool, ave: real)
    requires available ==> ave != 0.0
    requires available && pointSize == 0 ==> FittingPoints(availableMs, ave) >= 0
    requires Predicted(s, availableMs, minCoef, pointSize, available, ave).1
    ensures available && pointSize != 0
    ensures var r := Predicted(s, availableMs, minCoef, pointSize, available, ave).0;
      var dsc := UnclampedCoef(FittingPoints(availableMs, ave), pointSize);
      && r.downSizeLimited == (dsc < minCoef)
      && r.downSizeCoef == (if dsc < minCoef then minCoef else dsc)
      && r.downSizeCoef >= minCoef
      && r.estimatedOptimPts == Trunc(pointSize as real * r.downSizeCoef / 100.0)
      && r.predictedProcessTimeCtrl == ave * r.estimatedOptimPts as real / 1000.0
  {
  }

  /**
    On a "yes" that the floor did not limit, the recommended count is the point
    budget; with a positive mean and a non-negative budget the controlled time
    then fits the available time and the percentage is below 100.
  */
  lemma PredictFits(s: ControlStatus, availableMs: real, minCoef: real, pointSize: int, ave: real)
    requires ave != 0.0
    requires pointSize == 0 ==> FittingPoints(availableMs, ave) >= 0
    requires var (r, required) := Predicted(s, availableMs, minCoef, pointSize, true, ave);
      required && !r.downSizeLimited
    ensures var r := Predicted(s, availableMs, minCoef, pointSize, true, ave).0;
      && r.estimatedOptimPts == FittingPoints(availableMs, ave)
      && (ave > 0.0 && availableMs >= 0.0 ==>
            r.predictedProcessTimeCtrl <= availableMs && r.downSizeCoef < 100.0)
  {
    var m := FittingPoints(availableMs, ave);
    RecommendedIsFitting(m, pointSize);
    if ave > 0.0 && availableMs >= 0.0 {
      BudgetTimeFits(availableMs, ave);
      CoefBelowHundred(m, pointSize);
    }
  }

  class LoadController {
    const smoother: Movmean
    var status: ControlStatus
    var targetSlackMs: real
    var minimumDownsampleCoef: real
    var intervalTimeMs: real

    ghost predicate Valid()
      reads this, smoother, smoother.arr
    {
      smoother.Valid()
    }

    constructor (nmean: nat)
      requires 1 <= nmean <= MaxCapacity
      ensures Valid() && fresh(smoother) && fresh(smoother.arr)
      ensures smoother.View() == Fresh(nmean)
      ensures status == InitialStatus
      ensures targetSlackMs == 0.0 && minimumDownsampleCoef == 0.0 && intervalTimeMs == 0.0
    {
      smoother := new Movmean(nmean);
      status := InitialStatus;
      targetSlackMs := 0.0;
      minimumDownsampleCoef := 0.0;
      intervalTimeMs := 0.0;
    }

    /** Feeds one ratio, milliseconds per 1000 points, into the smoother. */
    method UpdateRatio(pointSize: int, dtNsec: real)
      requires Valid() && pointSize != 0
      modifies smoother, smoother.arr
      ensures Valid()
      ensures smoother.View() == Step(old(smoother.View()), (dtNsec / 1000000.0) / (pointSize as real / 1000.0))
    {
      var msPerKpts := (dtNsec / 1000000.0) / (pointSize as real / 1000.0);
      var _ := smoother.Update(msPerKpts);
    }

    /**
      Decides whether a cloud of `pointSize` points must be downsized to fit the
      cycle; `available` and `ave` are the smoother's availability and mean.
    */
    method Predict(pointSize: int, available: bool, ave: real) returns (required: bool)
      requires Valid()
      requires available ==> ave != 0.0
      requires available && pointSize == 0 ==> FittingPoints(intervalTimeMs - targetSlackMs, ave) >= 0
      modifies this`status
      ensures Valid()
      ensures (status, required) ==
        Predicted(old(status), intervalTimeMs - targetSlackMs, minimumDownsampleCoef, pointSize, available, ave)
    {
      status := status.(downSizeCoef := 100.0);
      if !available {
        return false;
      }

      status := status.(msPerKptsAve := ave);
      status := status.(predictedProcessTimeRaw := TimeFor(status.msPerKptsAve, pointSize));
      var availableTime := intervalTimeMs - targetSlackMs;
      var maxThPts := FittingPoints(availableTime, status.msPerKptsAve);
      var excessPts := pointSize - maxThPts;
      if excessPts <= 0 {
        status := status.(predictedProcessTimeCtrl := status.predictedProcessTimeRaw);
        return false;
      }

      var dsc := UnclampedCoef(pointSize - excessPts, pointSize);
      status := status.(downSizeLimited := dsc < minimumDownsampleCoef);
      dsc := if status.downSizeLimited then minimumDownsampleCoef else dsc;
      status := status.(estimatedOptimPts := PointsAt(pointSize, dsc));
      status := status.(downSizeCoef := dsc);
      status := status.(predictedProcessTimeCtrl := TimeFor(status.msPerKptsAve, status.estimatedOptimPts));
      return true;
    }
  }
}
