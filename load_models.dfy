/**
 * The value types of the load-test page: control points of a load profile, the
 * four test types and their stored state, and the execution status shown while
 * a run is in progress.
 */
module LoadModels {
  import opened Wrappers

  datatype TestType = Load | Stress | Spike | Soak
  datatype ScenarioType = FixedVus | RampingVus | ConstantArrivalRate
  datatype DurationUnit = Minutes | Hours

  /** One vertex of the piecewise-linear load curve: minutes since start, virtual users. */
  datatype ControlPoint = ControlPoint(time: real, vus: real)

  datatype TestTypeState = TestTypeState(
    virtualUsers: real,
    duration: real,
    durationUnit: DurationUnit,
    scenarioType: ScenarioType,
    rampUpDuration: real,
    rampDownDuration: real,
    controlPoints: seq<ControlPoint>,
    isCustomMode: bool,
    hasBeenEdited: bool)

  datatype RunState = Idle | Running | Completed | Failed

  /** A JavaScript number that may be NaN (the VU reading on a zero-width segment). */
  datatype Num = Finite(value: real) | NaN

  datatype ExecutionStatus = ExecutionStatus(
    status: RunState,
    startTime: Option<int>,
    elapsedTime: Option<int>,
    currentVUs: Option<Num>,
    progress: Option<real>,
    testId: Option<string>)

  datatype KeyValue = KeyValue(key: string, value: string)
  datatype Threshold = Threshold(metric: string, condition: string)

  datatype LoadTestConfiguration = LoadTestConfiguration(
    component: string,
    targetUrl: string,
    testType: TestType,
    virtualUsers: real,
    duration: real,
    durationUnit: DurationUnit,
    scenarioType: ScenarioType,
    rampUpDuration: Option<real>,
    rampDownDuration: Option<real>,
    headers: seq<KeyValue>,
    thresholds: seq<Threshold>,
    environmentVariables: seq<KeyValue>,
    controlPoints: seq<ControlPoint>)

  function Last<T>(s: seq<T>): T
    requires |s| > 0
  {
    s[|s| - 1]
  }

  /** Times never repeat and never go back. */
  predicate StrictlyIncreasing(points: seq<ControlPoint>) {
    forall i, j :: 0 <= i < j < |points| ==> points[i].time < points[j].time
  }

  /** Times never go back (equal neighbours allowed). */
  predicate NonDecreasing(points: seq<ControlPoint>) {
    forall i, j :: 0 <= i < j < |points| ==> points[i].time <= points[j].time
  }

  /** Strict order of a sequence follows from strict order of its neighbours. */
  lemma {:induction false} StrictlyIncreasingFromNeighbours(points: seq<ControlPoint>)
    requires forall i :: 0 <= i < |points| - 1 ==> points[i].time < points[i + 1].time
    ensures StrictlyIncreasing(points)
  {
    forall i, j | 0 <= i < j < |points|
      ensures points[i].time < points[j].time
    {
      NeighboursChain(points, i, j);
    }
  }

  lemma {:induction false} NeighboursChain(points: seq<ControlPoint>, i: nat, j: nat)
    requires forall k :: 0 <= k < |points| - 1 ==> points[k].time < points[k + 1].time
    requires i < j < |points|
    ensures points[i].time < points[j].time
    decreases j - i
  {
    if i + 1 < j {
      NeighboursChain(points, i + 1, j);
    }
  }

  /** The load profile a run follows: starts at 0, ends at `duration`, strictly ordered in time. */
  predicate WellFormedCurve(points: seq<ControlPoint>, duration: real) {
    |points| >= 2 && points[0].time == 0.0 && Last(points).time == duration
    && StrictlyIncreasing(points)
  }

  /** A duration in the page's unit, in minutes. */
  function DurationInMinutes(duration: real, unit: DurationUnit): (r: real)
    ensures unit == Minutes ==> r == duration
    ensures unit == Hours ==> r == duration * 60.0
    ensures r > 0.0 <==> duration > 0.0
    ensures r == 0.0 <==> duration == 0.0
  {
    match unit
    case Hours => duration * 60.0
    case Minutes => duration
  }
}
