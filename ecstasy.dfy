/**
 * The load-test page: it owns the configuration and the load curve, keeps the
 * curve in step with the configuration until the user edits it, applies the graph
 * editor's add/update/delete events, validates and submits a run, and simulates
 * the run's progress tick by tick.
 */
module Ecstasy {
  import opened Wrappers
  import opened JsMath
  import opened Text
  import opened Lists
  import opened LoadModels
  import opened ControlPointsCalculator
  import opened LoadTestState

  // ---------------------------------------------------------------- computed values

  /** The largest of `acc` and the VUs of every point. */
  function MaxVusOf(points: seq<ControlPoint>, acc: real): (r: real)
    ensures r >= acc
    ensures forall i :: 0 <= i < |points| ==> r >= points[i].vus
    ensures r == acc || exists i :: 0 <= i < |points| && r == points[i].vus
    decreases |points|
  {
    if points == [] then acc
    else
      var r := MaxVusOf(points[1..], Max(acc, points[0].vus));
      assert forall i :: 1 <= i < |points| ==> points[i] == points[1..][i - 1];
      r
  }

  /** `maxVUs`: the top of the graph's VU axis, at least 1, the configured VUs and every point's VUs. */
  function MaxVus(virtualUsers: real, points: seq<ControlPoint>): (r: real)
    ensures r >= 1.0 && r >= virtualUsers
    ensures forall i :: 0 <= i < |points| ==> r >= points[i].vus
    ensures r == 1.0 || r == virtualUsers || exists i :: 0 <= i < |points| && r == points[i].vus
  {
    Max(MaxVusOf(points, virtualUsers), 1.0)
  }

  /** `isConfigurationValid`: a component, a URL that is not blank, positive VUs and duration. */
  /** The URL check comes down to "some character is not white space". */
  function IsConfigurationValid(component: string, targetUrl: string, virtualUsers: real, duration: real): (b: bool)
    ensures b <==>
      component != [] && (exists i :: 0 <= i < |targetUrl| && !IsJsWhiteSpace(targetUrl[i]))
      && virtualUsers > 0.0 && duration > 0.0
  {
    TrimEmptyIff(targetUrl);
    component != "" && Trim(targetUrl) != "" && virtualUsers > 0.0 && duration > 0.0
  }

  // ---------------------------------------------------------------- curve edits

  /** `findIndex(p => p.time > t)`, with "not found" read as the length. */
  function FirstLater(points: seq<ControlPoint>, t: real): (r: nat)
    ensures r <= |points|
    ensures forall j :: 0 <= j < r ==> points[j].time <= t
    ensures r < |points| ==> points[r].time > t
    decreases |points|
  {
    if points == [] then 0
    else if points[0].time > t then 0
    else
      var r := FirstLater(points[1..], t);
      assert forall j :: 1 <= j < |points| ==> points[j] == points[1..][j - 1];
      1 + r
  }

  /**
   * `onPointAdded`'s list edit: insert before the first later point, unless a
   * neighbour of the insertion place has the same time.
   */
  function InsertPoint(points: seq<ControlPoint>, p: ControlPoint): (r: Option<seq<ControlPoint>>)
    ensures var k := FirstLater(points, p.time);
      (r.None? <==> (k > 0 && points[k - 1].time == p.time) || (k < |points| && points[k].time == p.time))
      && (r.Some? ==>
            |r.value| == |points| + 1 && r.value[k] == p
            && r.value[..k] == points[..k] && r.value[k + 1..] == points[k..])
  {
    var k := FirstLater(points, p.time);
    if (k > 0 && points[k - 1].time == p.time) || (k < |points| && points[k].time == p.time) then None
    else
      var r := points[..k] + [p] + points[k..];
      assert r[k + 1..] == points[k..];
      Some(r)
  }

  /** Inserting into a strictly ordered curve keeps it strictly ordered. */
  lemma InsertKeepsStrictOrder(points: seq<ControlPoint>, p: ControlPoint)
    requires StrictlyIncreasing(points)
    requires InsertPoint(points, p).Some?
    ensures StrictlyIncreasing(InsertPoint(points, p).value)
  {
    var r := InsertPoint(points, p).value;
    var k := FirstLater(points, p.time);
    forall i | 0 <= i < |r| - 1
      ensures r[i].time < r[i + 1].time
    {
      if i + 1 < k {
        assert r[i] == r[..k][i] && r[i + 1] == r[..k][i + 1];
      } else if i + 1 == k {
        assert r[i] == r[..k][i] == points[k - 1];
      } else if i == k {
        assert r[i + 1] == r[k + 1..][0] == points[k];
      } else {
        assert r[i] == r[k + 1..][i - k - 1] == points[i - 1];
        assert r[i + 1] == r[k + 1..][i - k] == points[i];
      }
    }
    StrictlyIncreasingFromNeighbours(r);
  }

  /** On a strictly ordered curve an insertion is refused exactly when a point already has that time. */
  lemma InsertRejectsIffTimeTaken(points: seq<ControlPoint>, p: ControlPoint)
    requires StrictlyIncreasing(points)
    ensures InsertPoint(points, p).None? <==> exists j :: 0 <= j < |points| && points[j].time == p.time
  {
    var k := FirstLater(points, p.time);
    if j :| 0 <= j < |points| && points[j].time == p.time {
      assert j < k;
      assert points[k - 1].time == p.time;
    }
  }

  /** A point inside the curve's time span never replaces its first or last point. */
  lemma InsertKeepsEndpoints(points: seq<ControlPoint>, p: ControlPoint)
    requires points != [] && points[0].time <= p.time <= Last(points).time
    requires InsertPoint(points, p).Some?
    ensures InsertPoint(points, p).value[0] == points[0]
    ensures Last(InsertPoint(points, p).value) == Last(points)
  {
    var r := InsertPoint(points, p).value;
    var k := FirstLater(points, p.time);
    assert r[0] == r[..k][0];
    assert r[|r| - 1] == r[k + 1..][|points| - 1 - k];
  }

  /**
   * `onPointUpdated`'s list edit `points[index] = p`: an entry inside the list is
   * replaced, the index just past the end appends, and a negative index names no
   * element, so the entries stay as they were.
   */
  function ReplacePoint(points: seq<ControlPoint>, index: int, p: ControlPoint): (r: seq<ControlPoint>)
    requires index <= |points|
    ensures index < 0 ==> r == points
    ensures 0 <= index < |points| ==> |r| == |points| && r[index] == p
    ensures 0 <= index < |points| ==> forall j :: 0 <= j < |points| && j != index ==> r[j] == points[j]
    ensures index == |points| ==> r == points + [p]
  {
    if index < 0 then points
    else if index == |points| then points + [p]
    else points[index := p]
  }

  /** A point moved strictly between its neighbours keeps a strictly ordered curve strictly ordered. */
  lemma ReplaceBetweenKeepsOrder(points: seq<ControlPoint>, index: nat, p: ControlPoint)
    requires StrictlyIncreasing(points) && index < |points|
    requires index > 0 ==> points[index - 1].time < p.time
    requires index + 1 < |points| ==> p.time < points[index + 1].time
    ensures StrictlyIncreasing(ReplacePoint(points, index, p))
  {
    var r := ReplacePoint(points, index, p);
    forall i | 0 <= i < |r| - 1
      ensures r[i].time < r[i + 1].time
    {
      if i + 1 == index {
        assert r[i] == points[i];
      } else if i == index {
        assert r[i + 1] == points[i + 1];
      } else {
        assert r[i] == points[i] && r[i + 1] == points[i + 1];
      }
    }
    StrictlyIncreasingFromNeighbours(r);
  }

  /** `onPointDeleted`'s list edit: curves of two points or fewer are kept whole. */
  function DeletePoint(points: seq<ControlPoint>, index: int): (r: seq<ControlPoint>)
    ensures |points| <= 2 ==> r == points
    ensures |points| > 2 ==> r == RemoveIndex(points, index)
  {
    if |points| <= 2 then points else RemoveIndex(points, index)
  }

  /** Deleting never leaves fewer than two points and keeps a strictly ordered curve strictly ordered. */
  lemma DeleteKeepsCurve(points: seq<ControlPoint>, index: int)
    requires |points| >= 2
    ensures |DeletePoint(points, index)| >= 2
    ensures StrictlyIncreasing(points) ==> StrictlyIncreasing(DeletePoint(points, index))
  {
    var r := DeletePoint(points, index);
    if StrictlyIncreasing(points) && 0 <= index < |points| && |points| > 2 {
      forall i, j | 0 <= i < j < |r|
        ensures r[i].time < r[j].time
      {
        var i' := if i < index then i else i + 1;
        var j' := if j < index then j else j + 1;
        assert r[i] == points[i'] && r[j] == points[j'];
      }
    }
  }

  // ---------------------------------------------------------------- run progress

  predicate InSegment(points: seq<ControlPoint>, k: nat, elapsed: real)
    requires k + 1 < |points|
  {
    points[k].time <= elapsed <= points[k + 1].time
  }

  /** The first segment, from index `i` on, whose time span contains `elapsed`. */
  function FirstSegment(points: seq<ControlPoint>, elapsed: real, i: nat): (r: Option<nat>)
    ensures r.Some? ==>
      i <= r.value && r.value + 1 < |points| && InSegment(points, r.value, elapsed)
      && forall k :: i <= k < r.value ==> !InSegment(points, k, elapsed)
    ensures r.None? ==> forall k :: i <= k && k + 1 < |points| ==> !InSegment(points, k, elapsed)
    decreases |points| - i
  {
    if i + 1 >= |points| then None
    else if InSegment(points, i, elapsed) then Some(i)
    else FirstSegment(points, elapsed, i + 1)
  }

  /**
   * The rounded linear interpolation on segment `k`. On a zero-width segment the
   * source divides zero by zero and reports NaN.
   */
  function SegmentVus(points: seq<ControlPoint>, k: nat, elapsed: real): Num
    requires k + 1 < |points|
  {
    var width := points[k + 1].time - points[k].time;
    if width == 0.0 then NaN
    else
      var segmentProgress := (elapsed - points[k].time) / width;
      Finite(Round(points[k].vus + (points[k + 1].vus - points[k].vus) * segmentProgress) as real)
  }

  /** The VUs a run shows at `elapsed`: interpolated on the first segment containing it, else 0. */
  function CurrentVusAt(points: seq<ControlPoint>, elapsed: real): Num {
    match FirstSegment(points, elapsed, 0)
    case None => Finite(0.0)
    case Some(k) => SegmentVus(points, k, elapsed)
  }

  /** The segment loop of the progress timer, leaving at the first segment that contains `elapsed`. */
  method InterpolateVus(points: seq<ControlPoint>, elapsed: real) returns (currentVus: Num)
    ensures currentVus == CurrentVusAt(points, elapsed)
  {
    currentVus := Finite(0.0);
    var i := 0;
    while i + 1 < |points|
      invariant FirstSegment(points, elapsed, 0) == FirstSegment(points, elapsed, i)
      decreases |points| - i
    {
      if points[i].time <= elapsed && elapsed <= points[i + 1].time {
        currentVus := SegmentVus(points, i, elapsed);
        return;
      }
      i := i + 1;
    }
  }

  lemma {:induction false} FirstSegmentIs(points: seq<ControlPoint>, elapsed: real, i: nat, k: nat)
    requires i <= k && k + 1 < |points| && InSegment(points, k, elapsed)
    requires forall j :: i <= j < k ==> !InSegment(points, j, elapsed)
    ensures FirstSegment(points, elapsed, i) == Some(k)
    decreases k - i
  {
    if i < k {
      FirstSegmentIs(points, elapsed, i + 1, k);
    }
  }

  lemma DivSelf(x: real)
    requires x > 0.0
    ensures x / x == 1.0
  {
    var q := x / x;
    assert q * x == x;
    if q < 1.0 {
      MulLeftStrict(x, q, 1.0);
    } else if q > 1.0 {
      MulLeftStrict(x, 1.0, q);
    }
  }

  /** At the start of a segment of positive width, the interpolation gives the segment's first VUs. */
  lemma SegmentVusAtStart(points: seq<ControlPoint>, k: nat)
    requires k + 1 < |points| && points[k].time < points[k + 1].time
    ensures SegmentVus(points, k, points[k].time) == Finite(Round(points[k].vus) as real)
  {
    var e := points[k].time;
    var width := points[k + 1].time - e;
    var sp := (e - points[k].time) / width;
    assert e - points[k].time == 0.0;
    assert sp == 0.0;
    var v := points[k].vus + (points[k + 1].vus - points[k].vus) * sp;
    assert v == points[k].vus;
    assert SegmentVus(points, k, e) == Finite(Round(v) as real);
  }

  /** At the end of a segment of positive width, the interpolation gives the segment's last VUs. */
  lemma SegmentVusAtEnd(points: seq<ControlPoint>, k: nat)
    requires k + 1 < |points| && points[k].time < points[k + 1].time
    ensures SegmentVus(points, k, points[k + 1].time) == Finite(Round(points[k + 1].vus) as real)
  {
    var e := points[k + 1].time;
    var width := e - points[k].time;
    DivSelf(width);
    var sp := (e - points[k].time) / width;
    assert sp == 1.0;
    var v := points[k].vus + (points[k + 1].vus - points[k].vus) * sp;
    assert v == points[k + 1].vus;
    assert SegmentVus(points, k, e) == Finite(Round(v) as real);
  }

  /** At the time of a control point of a strictly ordered curve, the run shows that point's VUs. */
  lemma ReadingAtControlPoint(points: seq<ControlPoint>, k: nat)
    requires |points| >= 2 && k < |points| && StrictlyIncreasing(points)
    ensures CurrentVusAt(points, points[k].time) == Finite(Round(points[k].vus) as real)
  {
    var e := points[k].time;
    if k == 0 {
      FirstSegmentIs(points, e, 0, 0);
      SegmentVusAtStart(points, 0);
    } else {
      forall j | 0 <= j < k - 1
        ensures !InSegment(points, j, e)
      {
        assert points[j + 1].time < e;
      }
      FirstSegmentIs(points, e, 0, k - 1);
      SegmentVusAtEnd(points, k - 1);
    }
  }

  /** Before the curve starts or after it ends, the run shows 0 VUs. */
  lemma ReadingOutsideCurve(points: seq<ControlPoint>, elapsed: real)
    requires points != [] && NonDecreasing(points)
    requires elapsed < points[0].time || elapsed > Last(points).time
    ensures CurrentVusAt(points, elapsed) == Finite(0.0)
  {
    forall k | 0 <= k && k + 1 < |points|
      ensures !InSegment(points, k, elapsed)
    {
      assert points[0].time <= points[k].time && points[k + 1].time <= Last(points).time;
    }
  }

  /** `Math.min(elapsed / total * 100, 100)`; a zero total gives 100, since the source divides by zero. */
  function Progress(elapsed: nat, total: real): (r: real)
    requires elapsed >= 1
    ensures r <= 100.0
    ensures total > 0.0 ==> r >= 0.0
    ensures total > 0.0 ==> (r == 100.0 <==> elapsed as real >= total)
    ensures total == 0.0 ==> r == 100.0
  {
    if total == 0.0 then 100.0
    else if total > 0.0 then
      ProgressCaps(elapsed as real, total);
      Min(elapsed as real / total * 100.0, 100.0)
    else
      Min(elapsed as real / total * 100.0, 100.0)
  }

  lemma ProgressCaps(e: real, total: real)
    requires e > 0.0 && total > 0.0
    ensures e / total * 100.0 >= 0.0
    ensures e / total * 100.0 >= 100.0 <==> e >= total
  {
    var q := e / total;
    assert q * total == e;
    if e >= total {
      if q < 1.0 {
        MulLeftStrict(total, q, 1.0);
      }
    } else {
      if q >= 1.0 {
        MulLeft(total, 1.0, q);
      }
    }
    if q < 0.0 {
      MulLeftStrict(total, q, 0.0);
    }
  }

  // ---------------------------------------------------------------- the page

  const IdleStatus := ExecutionStatus(Idle, None, None, None, None, None)

  /** A header or environment row is sent only when both its fields are non-empty. */
  predicate CompleteRow(row: KeyValue) {
    row.key != "" && row.value != ""
  }

  predicate CompleteThreshold(row: Threshold) {
    row.metric != "" && row.condition != ""
  }

  /** `x || undefined` on a ramp duration: a zero ramp is not sent. */
  function OptionalRamp(x: real): (r: Option<real>)
    ensures r.None? <==> x == 0.0
    ensures r.Some? ==> r.value == x
  {
    if x == 0.0 then None else Some(x)
  }

  /** The page that hosts the graph editor. `elapsed`, `trackedDuration` and `tracking` are the progress interval's state. */
  class EcstasyComponent {
    var selectedComponent: string
    var targetUrl: string
    var testType: TestType
    var controlPoints: seq<ControlPoint>
    var isCustomMode: bool
    var showK6Phases: bool
    var virtualUsers: real
    var duration: real
    var durationUnit: DurationUnit
    var scenarioType: ScenarioType
    var rampUpDuration: real
    var rampDownDuration: real
    var headers: seq<KeyValue>
    var thresholds: seq<Threshold>
    var environmentVariables: seq<KeyValue>
    var executionStatus: ExecutionStatus
    var showResultsIframe: bool

    var elapsed: nat
    var trackedDuration: real
    var tracking: bool

    const stateService: LoadTestStateService

    ghost predicate Valid()
      reads this, stateService
    {
      stateService.Valid()
    }

    constructor (stateService: LoadTestStateService)
      requires stateService.Valid()
      ensures Valid() && this.stateService == stateService
      ensures selectedComponent == "" && targetUrl == "" && testType == Load
      ensures controlPoints == [ControlPoint(0.0, 0.0), ControlPoint(5.0, 10.0)]
      ensures !isCustomMode && !showK6Phases
      ensures virtualUsers == 10.0 && duration == 5.0 && durationUnit == Minutes && scenarioType == FixedVus
      ensures rampUpDuration == 0.0 && rampDownDuration == 0.0
      ensures headers == [KeyValue("", "")] && thresholds == [Threshold("", "")]
      ensures environmentVariables == [KeyValue("", "")]
      ensures executionStatus == IdleStatus && !showResultsIframe && !tracking
    {
      this.stateService := stateService;
      selectedComponent, targetUrl, testType := "", "", Load;
      controlPoints := [ControlPoint(0.0, 0.0), ControlPoint(5.0, 10.0)];
      isCustomMode, showK6Phases := false, false;
      virtualUsers, duration, durationUnit, scenarioType := 10.0, 5.0, Minutes, FixedVus;
      rampUpDuration, rampDownDuration := 0.0, 0.0;
      headers, thresholds, environmentVariables := [KeyValue("", "")], [Threshold("", "")], [KeyValue("", "")];
      executionStatus, showResultsIframe := IdleStatus, false;
      elapsed, trackedDuration, tracking := 0, 0.0, false;
    }

    function TotalDurationInMinutes(): (r: real)
      reads this
      ensures durationUnit == Minutes ==> r == duration
      ensures durationUnit == Hours ==> r == duration * 60.0
      ensures r > 0.0 <==> duration > 0.0
    {
      DurationInMinutes(duration, durationUnit)
    }

    function CanRunTest(): (b: bool)
      reads this
      ensures b <==>
        IsConfigurationValid(selectedComponent, targetUrl, virtualUsers, duration)
        && executionStatus.status != Running
    {
      IsConfigurationValid(selectedComponent, targetUrl, virtualUsers, duration) && executionStatus.status != Running
    }

    /** The auto-update gate: the curve follows the configuration until custom mode or an edit. */
    predicate RegenerationAllowed(): (b: bool)
      reads this, stateService
      requires Valid()
      ensures b <==> !isCustomMode && !stateService.GetState(testType).hasBeenEdited
    {
      !isCustomMode && !stateService.HasBeenEdited(testType)
    }

    /** The auto-update effect. */
    method AutoUpdateFromConfig()
      requires Valid()
      modifies this`controlPoints
      ensures RegenerationAllowed() ==>
        controlPoints == CalculateControlPoints(scenarioType, virtualUsers, TotalDurationInMinutes(),
                                                rampUpDuration, rampDownDuration)
      ensures !RegenerationAllowed() ==> controlPoints == old(controlPoints)
      ensures RegenerationAllowed() && TotalDurationInMinutes() > 0.0
              && rampUpDuration >= 0.0 && rampDownDuration >= 0.0 ==>
        WellFormedCurve(controlPoints, TotalDurationInMinutes())
    {
      if !isCustomMode && !stateService.HasBeenEdited(testType) {
        controlPoints := CalculateControlPoints(scenarioType, virtualUsers, TotalDurationInMinutes(),
                                                rampUpDuration, rampDownDuration);
        if TotalDurationInMinutes() > 0.0 && rampUpDuration >= 0.0 && rampDownDuration >= 0.0 {
          GeneratedCurveWellFormed(scenarioType, virtualUsers, TotalDurationInMinutes(),
                                   rampUpDuration, rampDownDuration);
        }
      }
    }

    /** The duration effect: rescale the curve to the current duration. */
    method AdjustControlPointsForNewDuration()
      requires |controlPoints| >= 3 && Abs(Last(controlPoints).time - TotalDurationInMinutes()) >= 0.01 ==>
        Last(controlPoints).time != 0.0
      modifies this`controlPoints
      ensures controlPoints == AdjustPointsForNewDuration(old(controlPoints), TotalDurationInMinutes())
    {
      if |controlPoints| == 0 {
        return;
      }
      var adjusted := AdjustPointsForNewDuration(controlPoints, TotalDurationInMinutes());
      if adjusted != controlPoints {
        controlPoints := adjusted;
      }
    }

    /** The test-type effect: copy the stored state of `t` into the page. */
    method LoadTestTypeState(t: TestType)
      requires Valid()
      modifies this`virtualUsers, this`duration, this`durationUnit, this`scenarioType,
               this`rampUpDuration, this`rampDownDuration, this`controlPoints, this`isCustomMode
      ensures var s := stateService.GetState(t);
        virtualUsers == s.virtualUsers && duration == s.duration && durationUnit == s.durationUnit
        && scenarioType == s.scenarioType && rampUpDuration == s.rampUpDuration
        && rampDownDuration == s.rampDownDuration && controlPoints == s.controlPoints
        && isCustomMode == s.isCustomMode
    {
      var s := stateService.GetState(t);
      virtualUsers, duration, durationUnit := s.virtualUsers, s.duration, s.durationUnit;
      scenarioType, rampUpDuration, rampDownDuration := s.scenarioType, s.rampUpDuration, s.rampDownDuration;
      controlPoints, isCustomMode := s.controlPoints, s.isCustomMode;
    }

    /** The save effect: every field of the current test type's state, with its edited flag as stored. */
    function CurrentUpdate(): (u: StateUpdate)
      reads this, stateService
      requires Valid()
      ensures u.hasBeenEdited == Some(stateService.HasBeenEdited(testType))
    {
      StateUpdate(Some(virtualUsers), Some(duration), Some(durationUnit), Some(scenarioType),
                  Some(rampUpDuration), Some(rampDownDuration), Some(controlPoints), Some(isCustomMode),
                  Some(stateService.HasBeenEdited(testType)))
    }

    method SaveState()
      requires Valid()
      modifies stateService
      ensures Valid()
      ensures stateService.testTypeStates ==
        old(stateService.testTypeStates)[testType := ApplyUpdate(old(stateService.GetState(testType)), old(CurrentUpdate()))]
      ensures forall t :: stateService.HasBeenEdited(t) == old(stateService.HasBeenEdited(t))
    {
      stateService.UpdateState(testType, CurrentUpdate());
    }

    /** Switching the unit re-reads the duration and truncates the curve at the new length in minutes. */
    method OnDurationUnitChanged(unit: DurationUnit)
      modifies this`durationUnit, this`controlPoints
      ensures unit == old(durationUnit) ==> durationUnit == old(durationUnit) && controlPoints == old(controlPoints)
      ensures unit != old(durationUnit) ==>
        durationUnit == unit && controlPoints == NormalizeToEnd(old(controlPoints), DurationInMinutes(duration, unit))
    {
      if durationUnit == unit {
        return;
      }
      durationUnit := unit;
      controlPoints := NormalizeToEnd(controlPoints, TotalDurationInMinutes());
    }

    method ToggleEditMode()
      modifies this`isCustomMode
      ensures isCustomMode == !old(isCustomMode)
    {
      isCustomMode := !isCustomMode;
    }

    method ToggleK6Phases()
      modifies this`showK6Phases
      ensures showK6Phases == !old(showK6Phases)
    {
      showK6Phases := !showK6Phases;
    }

    /** A refused insertion changes nothing; an accepted one also marks the test type edited. */
    method OnPointAdded(point: ControlPoint)
      requires Valid()
      modifies this`controlPoints, stateService
      ensures Valid()
      ensures InsertPoint(old(controlPoints), point).None? ==>
        controlPoints == old(controlPoints) && stateService.testTypeStates == old(stateService.testTypeStates)
      ensures InsertPoint(old(controlPoints), point).Some? ==>
        controlPoints == InsertPoint(old(controlPoints), point).value
        && stateService.testTypeStates ==
           old(stateService.testTypeStates)[testType := old(stateService.GetState(testType)).(hasBeenEdited := true)]
    {
      var inserted := InsertPoint(controlPoints, point);
      if inserted.None? {
        return;
      }
      controlPoints := inserted.value;
      stateService.MarkAsEdited(testType);
    }

    method OnPointUpdated(index: int, point: ControlPoint)
      requires Valid() && index <= |controlPoints|
      modifies this`controlPoints, stateService
      ensures Valid()
      ensures controlPoints == ReplacePoint(old(controlPoints), index, point)
      ensures stateService.testTypeStates ==
        old(stateService.testTypeStates)[testType := old(stateService.GetState(testType)).(hasBeenEdited := true)]
    {
      controlPoints := ReplacePoint(controlPoints, index, point);
      stateService.MarkAsEdited(testType);
    }

    method OnPointDeleted(index: int)
      requires Valid()
      modifies this`controlPoints, stateService
      ensures Valid()
      ensures |old(controlPoints)| <= 2 ==>
        controlPoints == old(controlPoints) && stateService.testTypeStates == old(stateService.testTypeStates)
      ensures |old(controlPoints)| > 2 ==>
        controlPoints == DeletePoint(old(controlPoints), index)
        && stateService.testTypeStates ==
           old(stateService.testTypeStates)[testType := old(stateService.GetState(testType)).(hasBeenEdited := true)]
    {
      if |controlPoints| <= 2 {
        return;
      }
      controlPoints := DeletePoint(controlPoints, index);
      stateService.MarkAsEdited(testType);
    }

    /** The request body `runTest` sends. */
    function BuildConfiguration(): (c: LoadTestConfiguration)
      reads this
      ensures c.component == selectedComponent && c.targetUrl == targetUrl && c.testType == testType
      ensures c.virtualUsers == virtualUsers && c.duration == duration && c.durationUnit == durationUnit
      ensures c.scenarioType == scenarioType
      ensures forall h :: multiset(c.headers)[h] == if CompleteRow(h) then multiset(headers)[h] else 0
      ensures forall t :: multiset(c.thresholds)[t] == if CompleteThreshold(t) then multiset(thresholds)[t] else 0
      ensures forall e ::
        multiset(c.environmentVariables)[e] == if CompleteRow(e) then multiset(environmentVariables)[e] else 0
      ensures forall h :: h in c.headers <==> h in headers && CompleteRow(h)
      ensures forall t :: t in c.thresholds <==> t in thresholds && CompleteThreshold(t)
      ensures forall e :: e in c.environmentVariables <==> e in environmentVariables && CompleteRow(e)
      ensures Subsequence(c.headers, headers) && Subsequence(c.thresholds, thresholds)
      ensures Subsequence(c.environmentVariables, environmentVariables)
      ensures c.rampUpDuration == OptionalRamp(rampUpDuration) && c.rampDownDuration == OptionalRamp(rampDownDuration)
      ensures c.controlPoints == controlPoints
    {
      LoadTestConfiguration(
        selectedComponent, targetUrl, testType, virtualUsers, duration, durationUnit, scenarioType,
        OptionalRamp(rampUpDuration), OptionalRamp(rampDownDuration),
        Filter(headers, CompleteRow), Filter(thresholds, CompleteThreshold),
        Filter(environmentVariables, CompleteRow), controlPoints)
    }

    /**
     * `runTest`: when a run may start, the status becomes running at `now` and the
     * configuration to send is returned; the request's answer arrives later, as
     * `OnRunStarted` or `OnRunFailed`.
     */
    method RunTest(now: int) returns (config: Option<LoadTestConfiguration>)
      modifies this`executionStatus
      ensures config.Some? <==> old(CanRunTest())
      ensures config.Some? ==>
        config.value == BuildConfiguration() && executionStatus == IdleStatus.(status := Running, startTime := Some(now))
      ensures config.None? ==> executionStatus == old(executionStatus)
    {
      if !CanRunTest() {
        return None;
      }
      config := Some(BuildConfiguration());
      executionStatus := ExecutionStatus(Running, Some(now), None, None, None, None);
    }

    /** The request succeeded: keep running, record the test id and start the progress interval. */
    method OnRunStarted(testId: Option<string>)
      modifies this`executionStatus, this`elapsed, this`trackedDuration, this`tracking
      ensures executionStatus == old(executionStatus).(status := Running, testId := testId)
      ensures elapsed == 0 && trackedDuration == TotalDurationInMinutes() && tracking
    {
      executionStatus := executionStatus.(status := Running, testId := testId);
      StartProgressTracking();
    }

    method OnRunFailed()
      modifies this`executionStatus
      ensures executionStatus == IdleStatus.(status := Failed)
    {
      executionStatus := ExecutionStatus(Failed, None, None, None, None, None);
    }

    /** The interval counts from 0 and captures the total duration once, at start. */
    method StartProgressTracking()
      modifies this`elapsed, this`trackedDuration, this`tracking
      ensures elapsed == 0 && trackedDuration == TotalDurationInMinutes() && tracking
    {
      elapsed := 0;
      trackedDuration := TotalDurationInMinutes();
      tracking := true;
    }

    /** One interval tick: advance, report progress and the interpolated VUs, complete once the total is reached. */
    method ProgressTick()
      requires tracking
      modifies this`elapsed, this`executionStatus, this`tracking
      ensures elapsed == old(elapsed) + 1
      ensures var reported := old(executionStatus).(elapsedTime := Some(elapsed),
                                                    currentVUs := Some(CurrentVusAt(controlPoints, elapsed as real)),
                                                    progress := Some(Progress(elapsed, trackedDuration)));
        if elapsed as real >= trackedDuration then
          !tracking && executionStatus == reported.(status := Completed, progress := Some(100.0),
                                                    currentVUs := Some(Finite(virtualUsers)))
        else
          tracking && executionStatus == reported
    {
      elapsed := elapsed + 1;
      var progress := Progress(elapsed, trackedDuration);
      var currentVus := InterpolateVus(controlPoints, elapsed as real);
      executionStatus := executionStatus.(elapsedTime := Some(elapsed), currentVUs := Some(currentVus),
                                          progress := Some(progress));
      if elapsed as real >= trackedDuration {
        CompleteTest();
      }
    }

    method CompleteTest()
      modifies this`executionStatus, this`tracking
      ensures !tracking
      ensures executionStatus == old(executionStatus).(status := Completed, progress := Some(100.0),
                                                       currentVUs := Some(Finite(virtualUsers)))
    {
      tracking := false;
      executionStatus := executionStatus.(status := Completed, progress := Some(100.0),
                                          currentVUs := Some(Finite(virtualUsers)));
    }

    /** The results frame opens only for a run with a non-empty test id. */
    method ViewResults()
      modifies this`showResultsIframe
      ensures var id := executionStatus.testId;
        showResultsIframe == (if id.Some? && id.value != "" then true else old(showResultsIframe))
    {
      var id := executionStatus.testId;
      if id.Some? && id.value != "" {
        showResultsIframe := true;
      }
    }

    method CloseResultsIframe()
      modifies this`showResultsIframe
      ensures !showResultsIframe
    {
      showResultsIframe := false;
    }

    /** Back to the defaults: empty form, one empty row per list, idle, flags reset, the load state reloaded. */
    method ResetConfiguration()
      requires Valid()
      modifies this`selectedComponent, this`targetUrl, this`testType, this`headers, this`thresholds,
               this`environmentVariables, this`executionStatus,
               this`virtualUsers, this`duration, this`durationUnit, this`scenarioType,
               this`rampUpDuration, this`rampDownDuration, this`controlPoints, this`isCustomMode, stateService
      ensures Valid()
      ensures selectedComponent == "" && targetUrl == "" && testType == Load
      ensures headers == [KeyValue("", "")] && thresholds == [Threshold("", "")]
      ensures environmentVariables == [KeyValue("", "")] && executionStatus == IdleStatus
      ensures forall t :: stateService.testTypeStates[t] == ResetFlags(old(stateService.testTypeStates)[t])
      ensures var s := old(stateService.testTypeStates)[Load];
        virtualUsers == s.virtualUsers && duration == s.duration && durationUnit == s.durationUnit
        && scenarioType == s.scenarioType && rampUpDuration == s.rampUpDuration
        && rampDownDuration == s.rampDownDuration && controlPoints == s.controlPoints
        && !isCustomMode
    {
      selectedComponent, targetUrl, testType := "", "", Load;
      headers, thresholds, environmentVariables := [KeyValue("", "")], [Threshold("", "")], [KeyValue("", "")];
      executionStatus := IdleStatus;
      stateService.ResetAll();
      LoadTestTypeState(Load);
    }
  }

  const ResultsBase := "https://grafana.example.com/d/load-test?testId="

  /** The address of the results dashboard; a missing test id prints as `undefined`. */
  function ResultsUrl(testId: Option<string>): (url: string)
    ensures |url| >= |ResultsBase| && url[..|ResultsBase|] == ResultsBase
    ensures testId.Some? ==> url[|ResultsBase|..] == testId.value
  {
    ResultsBase + (match testId case None => "undefined" case Some(id) => id)
  }

  /**
   * Adding a point to the page's curve marks the test type edited, after which the
   * auto-update effect no longer replaces the curve.
   */
  method EditStopsRegeneration(page: EcstasyComponent, point: ControlPoint)
    requires page.Valid() && InsertPoint(page.controlPoints, point).Some?
    modifies page, page.stateService
  {
    page.OnPointAdded(point);
    var drawn := page.controlPoints;
    page.AutoUpdateFromConfig();
    assert page.controlPoints == drawn;
  }
}
