/**
 * Generation and rescaling of load profiles (the control-points calculator
 * service): a curve from scenario parameters, a proportional rescale when the
 * duration changes, and a truncation when the duration unit changes.
 */
module ControlPointsCalculator {
  import opened JsMath
  import opened Lists
  import opened LoadModels

  /** Ramp time of a fixed-VUs curve: a tenth of the duration, at most one minute. */
  function FixedRampTime(duration: real): (r: real)
    ensures r <= 1.0 && r <= duration * 0.1
    ensures r == 1.0 || r == duration * 0.1
  {
    Min(duration * 0.1, 1.0)
  }

  /** Fixed VUs: ramp to `vus`, hold, ramp back to zero, each ramp `FixedRampTime` long. */
  function CalculateFixedVus(vus: real, duration: real): (r: seq<ControlPoint>)
    ensures |r| == 4
    ensures r[0] == ControlPoint(0.0, 0.0) && r[3] == ControlPoint(duration, 0.0)
    ensures r[1].vus == vus && r[2].vus == vus
    ensures r[1].time == FixedRampTime(duration) && r[1].time + r[2].time == duration
    ensures duration > 0.0 ==> WellFormedCurve(r, duration)
  {
    var rampTime := FixedRampTime(duration);
    var r := [
      ControlPoint(0.0, 0.0),
      ControlPoint(rampTime, vus),
      ControlPoint(duration - rampTime, vus),
      ControlPoint(duration, 0.0)
    ];
    assert duration > 0.0 ==> WellFormedCurve(r, duration) by {
      if duration > 0.0 {
        StrictlyIncreasingFromNeighbours(r);
      }
    }
    r
  }

  /** `rampUp || duration * 0.2`: a zero ramp-up falls back to a fifth of the duration. */
  function EffectiveRampUp(rampUp: real, duration: real): (r: real)
    ensures rampUp != 0.0 ==> r == rampUp
    ensures rampUp == 0.0 ==> r == duration * 0.2
  {
    if rampUp != 0.0 then rampUp else duration * 0.2
  }

  /** `rampDown || duration * 0.1`: a zero ramp-down falls back to a tenth of the duration. */
  function EffectiveRampDown(rampDown: real, duration: real): (r: real)
    ensures rampDown != 0.0 ==> r == rampDown
    ensures rampDown == 0.0 ==> r == duration * 0.1
  {
    if rampDown != 0.0 then rampDown else duration * 0.1
  }

  function Plateau(rampUp: real, rampDown: real, duration: real): real {
    duration - EffectiveRampUp(rampUp, duration) - EffectiveRampDown(rampDown, duration)
  }

  /**
   * Ramping VUs: a trapezoid when the effective ramps leave a positive plateau,
   * otherwise a triangle peaking at half the duration.
   */
  function CalculateRampingVus(vus: real, duration: real, rampUp: real, rampDown: real): (r: seq<ControlPoint>)
    ensures |r| >= 3 && r[0] == ControlPoint(0.0, 0.0) && Last(r) == ControlPoint(duration, 0.0)
    ensures Plateau(rampUp, rampDown, duration) > 0.0 ==>
      |r| == 4 && r[1] == ControlPoint(EffectiveRampUp(rampUp, duration), vus)
      && r[2] == ControlPoint(duration - EffectiveRampDown(rampDown, duration), vus)
    ensures Plateau(rampUp, rampDown, duration) <= 0.0 ==>
      |r| == 3 && r[1] == ControlPoint(duration / 2.0, vus)
  {
    var up := EffectiveRampUp(rampUp, duration);
    var down := EffectiveRampDown(rampDown, duration);
    var plateau := duration - up - down;
    if plateau > 0.0 then
      [ControlPoint(0.0, 0.0), ControlPoint(up, vus), ControlPoint(up + plateau, vus),
       ControlPoint(duration, 0.0)]
    else
      [ControlPoint(0.0, 0.0), ControlPoint(duration / 2.0, vus), ControlPoint(duration, 0.0)]
  }

  /** Constant arrival rate: flat at `vus` from start to end. */
  function CalculateConstantArrival(vus: real, duration: real): (r: seq<ControlPoint>)
    ensures |r| == 2 && r[0] == ControlPoint(0.0, vus) && r[1] == ControlPoint(duration, vus)
    ensures duration > 0.0 ==> WellFormedCurve(r, duration)
  {
    [ControlPoint(0.0, vus), ControlPoint(duration, vus)]
  }

  /** The curve for a scenario; every scenario that is neither fixed nor ramping is constant arrival. */
  function CalculateControlPoints(scenario: ScenarioType, vus: real, duration: real,
                                  rampUp: real, rampDown: real): (r: seq<ControlPoint>)
    ensures scenario == FixedVus ==> r == CalculateFixedVus(vus, duration)
    ensures scenario == RampingVus ==> r == CalculateRampingVus(vus, duration, rampUp, rampDown)
    ensures scenario == ConstantArrivalRate ==> r == CalculateConstantArrival(vus, duration)
    ensures 2 <= |r| <= 4
  {
    match scenario
    case FixedVus => CalculateFixedVus(vus, duration)
    case RampingVus => CalculateRampingVus(vus, duration, rampUp, rampDown)
    case ConstantArrivalRate => CalculateConstantArrival(vus, duration)
  }

  /** With a positive duration and non-negative ramps the ramping curve is well formed. */
  lemma RampingVusWellFormed(vus: real, duration: real, rampUp: real, rampDown: real)
    requires duration > 0.0 && rampUp >= 0.0 && rampDown >= 0.0
    ensures WellFormedCurve(CalculateRampingVus(vus, duration, rampUp, rampDown), duration)
  {
    var r := CalculateRampingVus(vus, duration, rampUp, rampDown);
    StrictlyIncreasingFromNeighbours(r);
  }

  /** Every generated curve starts at 0, ends at the duration and is strictly ordered in time. */
  lemma GeneratedCurveWellFormed(scenario: ScenarioType, vus: real, duration: real,
                                 rampUp: real, rampDown: real)
    requires duration > 0.0 && rampUp >= 0.0 && rampDown >= 0.0
    ensures WellFormedCurve(CalculateControlPoints(scenario, vus, duration, rampUp, rampDown), duration)
  {
    if scenario == RampingVus {
      RampingVusWellFormed(vus, duration, rampUp, rampDown);
    }
  }

  /** A fixed-VUs curve over ten minutes for 50 users. */
  lemma FixedVusExample()
    ensures CalculateControlPoints(FixedVus, 50.0, 10.0, 0.0, 0.0)
      == [ControlPoint(0.0, 0.0), ControlPoint(1.0, 50.0), ControlPoint(9.0, 50.0), ControlPoint(10.0, 0.0)]
  {
  }

  /** Ramps of 4 + 4 minutes in a 5-minute run fall back to the triangle. */
  lemma RampingTriangleExample()
    ensures CalculateControlPoints(RampingVus, 100.0, 5.0, 4.0, 4.0)
      == [ControlPoint(0.0, 0.0), ControlPoint(2.5, 100.0), ControlPoint(5.0, 0.0)]
  {
  }

  function Abs(x: real): real {
    if x < 0.0 then -x else x
  }

  /**
   * Rescales a curve to `newDuration`: the first point moves to 0, the last to
   * `newDuration`, interior times are scaled by `newDuration / oldDuration`, where
   * `oldDuration` is the last point's time. A change under 0.01 leaves the curve as it is.
   */
  function AdjustPointsForNewDuration(points: seq<ControlPoint>, newDuration: real): (r: seq<ControlPoint>)
    requires |points| >= 3 && Abs(Last(points).time - newDuration) >= 0.01 ==> Last(points).time != 0.0
    ensures points == [] ==> r == []
    ensures points != [] && Abs(Last(points).time - newDuration) < 0.01 ==> r == points
    ensures points != [] && Abs(Last(points).time - newDuration) >= 0.01 ==>
      |r| == |points|
      && (forall i :: 0 <= i < |r| ==> r[i].vus == points[i].vus)
      && r[0].time == 0.0 && (|r| >= 2 ==> Last(r).time == newDuration)
      && forall i :: 0 < i < |r| - 1 ==>
           r[i].time == points[i].time * (newDuration / Last(points).time)
  {
    if points == [] then []
    else
      var oldDuration := Last(points).time;
      if Abs(oldDuration - newDuration) < 0.01 then points
      else
        seq(|points|, i requires 0 <= i < |points| =>
          if i == 0 then points[i].(time := 0.0)
          else if i == |points| - 1 then points[i].(time := newDuration)
          else points[i].(time := points[i].time * (newDuration / oldDuration)))
  }

  /** Scaling by a positive ratio keeps strict order. */
  lemma ScaleStrict(x: real, y: real, ratio: real)
    requires x < y && ratio > 0.0
    ensures x * ratio < y * ratio
  {
    assert y * ratio - x * ratio == (y - x) * ratio;
  }

  /** Rescaling between positive durations keeps a curve starting at or after 0 strictly ordered. */
  lemma AdjustKeepsStrictOrder(points: seq<ControlPoint>, newDuration: real)
    requires |points| >= 1 && points[0].time >= 0.0 && StrictlyIncreasing(points)
    requires Last(points).time > 0.0 && newDuration > 0.0
    ensures StrictlyIncreasing(AdjustPointsForNewDuration(points, newDuration))
  {
    var r := AdjustPointsForNewDuration(points, newDuration);
    var oldDuration := Last(points).time;
    if Abs(oldDuration - newDuration) >= 0.01 && |points| >= 2 {
      forall i | 0 <= i < |r| - 1
        ensures r[i].time < r[i + 1].time
      {
        AdjustNeighbours(points, newDuration, i);
      }
      StrictlyIncreasingFromNeighbours(r);
    }
  }

  lemma AdjustNeighbours(points: seq<ControlPoint>, newDuration: real, i: nat)
    requires |points| >= 2 && points[0].time >= 0.0 && StrictlyIncreasing(points)
    requires Last(points).time > 0.0 && newDuration > 0.0
    requires Abs(Last(points).time - newDuration) >= 0.01
    requires i < |points| - 1
    ensures var r := AdjustPointsForNewDuration(points, newDuration);
      r[i].time < r[i + 1].time
  {
    var r := AdjustPointsForNewDuration(points, newDuration);
    var n := |points|;
    var oldDuration := points[n - 1].time;
    var ratio := newDuration / oldDuration;
    assert ratio > 0.0;
    assert oldDuration * ratio == newDuration;
    assert points[i].time < points[i + 1].time;
    if i == 0 {
      if n > 2 {
        assert points[0].time < points[1].time;
        ScaleStrict(0.0, points[1].time, ratio);
      }
    } else if i + 1 == n - 1 {
      ScaleStrict(points[i].time, oldDuration, ratio);
      assert points[i].time * ratio < newDuration;
      assert 0 < i < |r| - 1;
      assert r[i].time == points[i].time * ratio;
      assert r[i + 1].time == newDuration;
    } else {
      ScaleStrict(points[i].time, points[i + 1].time, ratio);
    }
  }

  lemma RatioInverse(d1: real, d2: real)
    requires d1 > 0.0 && d2 > 0.0
    ensures (d2 / d1) * (d1 / d2) == 1.0
  {
  }

  /** Rescaling to another duration and back restores a curve that starts at 0. */
  lemma AdjustRoundTrip(points: seq<ControlPoint>, d1: real, d2: real)
    requires |points| >= 1 && points[0].time == 0.0 && Last(points).time == d1
    requires d1 > 0.0 && d2 > 0.0 && Abs(d1 - d2) >= 0.01
    ensures AdjustPointsForNewDuration(AdjustPointsForNewDuration(points, d2), d1) == points
  {
    var mid := AdjustPointsForNewDuration(points, d2);
    var back := AdjustPointsForNewDuration(mid, d1);
    assert Last(mid).time == d2;
    assert |back| == |points|;
    forall i | 0 <= i < |points|
      ensures back[i] == points[i]
    {
      if 0 < i < |points| - 1 {
        RatioInverse(d1, d2);
        calc {
          back[i].time;
          == points[i].time * (d2 / d1) * (d1 / d2);
          == points[i].time * ((d2 / d1) * (d1 / d2));
          == points[i].time;
        }
      }
    }
  }

  /** The points whose time is at most `duration`, each as often as in `points`, in order. */
  function KeepUpTo(points: seq<ControlPoint>, duration: real): (r: seq<ControlPoint>)
    ensures |r| <= |points|
    ensures forall p :: p in r <==> p in points && p.time <= duration
    ensures forall p :: multiset(r)[p] == if p.time <= duration then multiset(points)[p] else 0
    ensures Subsequence(r, points)
  {
    Filter(points, (p: ControlPoint) => p.time <= duration)
  }

  /**
   * Truncates a curve at `duration` for a change of duration unit: every point but
   * the last is kept when its time is at most `duration`; the last is always kept and
   * moved to `duration`.
   */
  function NormalizeToEnd(points: seq<ControlPoint>, duration: real): (r: seq<ControlPoint>)
    ensures points == [] ==> r == []
    ensures points != [] ==>
      r == KeepUpTo(points[..|points| - 1], duration) + [Last(points).(time := duration)]
  {
    if points == [] then []
    else
      var filtered := KeepUpTo(points[..|points| - 1], duration) + [Last(points)];
      filtered[|filtered| - 1 := Last(filtered).(time := duration)]
  }

  /** Truncation keeps the vus of every point it keeps, ends at `duration` and drops no point it must keep. */
  lemma NormalizeToEndProperties(points: seq<ControlPoint>, duration: real)
    requires points != []
    ensures var r := NormalizeToEnd(points, duration);
      |r| >= 1 && Last(r).time == duration && Last(r).vus == Last(points).vus
      && (forall i :: 0 <= i < |r| - 1 ==> r[i] in points[..|points| - 1] && r[i].time <= duration)
      && (forall i :: 0 <= i < |points| - 1 && points[i].time <= duration ==> points[i] in r[..|r| - 1])
      && (forall p :: multiset(r[..|r| - 1])[p] ==
            if p.time <= duration then multiset(points[..|points| - 1])[p] else 0)
  {
    var r := NormalizeToEnd(points, duration);
    var kept := KeepUpTo(points[..|points| - 1], duration);
    assert r[..|r| - 1] == kept;
    forall i | 0 <= i < |r| - 1
      ensures r[i] in points[..|points| - 1] && r[i].time <= duration
    {
      assert r[i] == kept[i];
    }
    forall i | 0 <= i < |points| - 1 && points[i].time <= duration
      ensures points[i] in r[..|r| - 1]
    {
      assert points[i] in points[..|points| - 1];
    }
  }

  /** The truncated curve, before its last point is re-timed, is the input with some points left out. */
  lemma NormalizeToEndSubsequence(points: seq<ControlPoint>, duration: real)
    requires points != []
    ensures Subsequence(KeepUpTo(points[..|points| - 1], duration) + [Last(points)], points)
  {
    var init := points[..|points| - 1];
    SubsequenceSnoc(KeepUpTo(init, duration), init, Last(points));
    assert init + [Last(points)] == points;
  }
}
