/**
 * The per-test-type state store: one saved configuration and load curve for each
 * of the four test types, with the "edited" flag that stops the page from
 * regenerating a curve the user has drawn.
 */
module LoadTestState {
  import opened Wrappers
  import opened LoadModels
  import opened ControlPointsCalculator

  /** The four test types, in the order the record is declared (and iterated). */
  const AllTestTypes: seq<TestType> := [Load, Stress, Spike, Soak]

  lemma AllTestTypesComplete(t: TestType)
    ensures t in AllTestTypes
  {
  }

  /** The state each test type starts with. */
  function InitialState(t: TestType): (s: TestTypeState)
    ensures !s.hasBeenEdited && !s.isCustomMode
    ensures WellFormedCurve(s.controlPoints, DurationInMinutes(s.duration, s.durationUnit))
    ensures s.controlPoints[0] == ControlPoint(0.0, 0.0)
  {
    match t
    case Load =>
      TestTypeState(50.0, 5.0, Minutes, RampingVus, 1.0, 0.5,
                    [ControlPoint(0.0, 0.0), ControlPoint(5.0, 50.0)], false, false)
    case Stress =>
      TestTypeState(200.0, 10.0, Minutes, RampingVus, 3.0, 1.0,
                    [ControlPoint(0.0, 0.0), ControlPoint(10.0, 200.0)], false, false)
    case Spike =>
      TestTypeState(100.0, 1.0, Minutes, RampingVus, 0.08, 0.08,
                    [ControlPoint(0.0, 0.0), ControlPoint(1.0, 100.0)], false, false)
    case Soak =>
      TestTypeState(20.0, 1.0, Hours, FixedVus, 0.0, 0.0,
                    [ControlPoint(0.0, 0.0), ControlPoint(6.0, 20.0), ControlPoint(54.0, 20.0), ControlPoint(60.0, 0.0)],
                    false, false)
  }

  /**
   * The stored initial curves are not the ones the calculator would generate from the
   * same parameters: the soak curve ramps over 6 minutes where the generator ramps over 1.
   */
  lemma InitialSoakCurveIsNotGenerated()
    ensures var s := InitialState(Soak);
      CalculateControlPoints(s.scenarioType, s.virtualUsers, DurationInMinutes(s.duration, s.durationUnit),
                             s.rampUpDuration, s.rampDownDuration)
      == [ControlPoint(0.0, 0.0), ControlPoint(1.0, 20.0), ControlPoint(59.0, 20.0), ControlPoint(60.0, 0.0)]
    ensures InitialState(Soak).controlPoints[1] == ControlPoint(6.0, 20.0)
  {
  }

  /** A `Partial<TestTypeState>`: each field either given or absent. */
  datatype StateUpdate = StateUpdate(
    virtualUsers: Option<real>,
    duration: Option<real>,
    durationUnit: Option<DurationUnit>,
    scenarioType: Option<ScenarioType>,
    rampUpDuration: Option<real>,
    rampDownDuration: Option<real>,
    controlPoints: Option<seq<ControlPoint>>,
    isCustomMode: Option<bool>,
    hasBeenEdited: Option<bool>)

  const NoUpdate := StateUpdate(None, None, None, None, None, None, None, None, None)

  /** `{ ...s, ...u }`: the fields present in `u` override those of `s`. */
  function ApplyUpdate(s: TestTypeState, u: StateUpdate): (r: TestTypeState)
    ensures r.virtualUsers == u.virtualUsers.GetOr(s.virtualUsers)
    ensures r.duration == u.duration.GetOr(s.duration)
    ensures r.durationUnit == u.durationUnit.GetOr(s.durationUnit)
    ensures r.scenarioType == u.scenarioType.GetOr(s.scenarioType)
    ensures r.rampUpDuration == u.rampUpDuration.GetOr(s.rampUpDuration)
    ensures r.rampDownDuration == u.rampDownDuration.GetOr(s.rampDownDuration)
    ensures r.controlPoints == u.controlPoints.GetOr(s.controlPoints)
    ensures r.isCustomMode == u.isCustomMode.GetOr(s.isCustomMode)
    ensures r.hasBeenEdited == u.hasBeenEdited.GetOr(s.hasBeenEdited)
  {
    TestTypeState(
      u.virtualUsers.GetOr(s.virtualUsers),
      u.duration.GetOr(s.duration),
      u.durationUnit.GetOr(s.durationUnit),
      u.scenarioType.GetOr(s.scenarioType),
      u.rampUpDuration.GetOr(s.rampUpDuration),
      u.rampDownDuration.GetOr(s.rampDownDuration),
      u.controlPoints.GetOr(s.controlPoints),
      u.isCustomMode.GetOr(s.isCustomMode),
      u.hasBeenEdited.GetOr(s.hasBeenEdited))
  }

  /** `{ ...u1, ...u2 }`: the later update wins field by field. */
  function Merge(u1: StateUpdate, u2: StateUpdate): StateUpdate {
    StateUpdate(
      if u2.virtualUsers.Some? then u2.virtualUsers else u1.virtualUsers,
      if u2.duration.Some? then u2.duration else u1.duration,
      if u2.durationUnit.Some? then u2.durationUnit else u1.durationUnit,
      if u2.scenarioType.Some? then u2.scenarioType else u1.scenarioType,
      if u2.rampUpDuration.Some? then u2.rampUpDuration else u1.rampUpDuration,
      if u2.rampDownDuration.Some? then u2.rampDownDuration else u1.rampDownDuration,
      if u2.controlPoints.Some? then u2.controlPoints else u1.controlPoints,
      if u2.isCustomMode.Some? then u2.isCustomMode else u1.isCustomMode,
      if u2.hasBeenEdited.Some? then u2.hasBeenEdited else u1.hasBeenEdited)
  }

  /** An empty update changes nothing; two updates in a row act as their merge. */
  lemma ApplyUpdateLaws(s: TestTypeState, u1: StateUpdate, u2: StateUpdate)
    ensures ApplyUpdate(s, NoUpdate) == s
    ensures ApplyUpdate(ApplyUpdate(s, u1), u2) == ApplyUpdate(s, Merge(u1, u2))
  {
  }

  /** What `resetAll` does to one state: both flags cleared, every other field kept. */
  function ResetFlags(s: TestTypeState): (r: TestTypeState)
    ensures !r.hasBeenEdited && !r.isCustomMode
    ensures r == s.(hasBeenEdited := false, isCustomMode := false)
  {
    s.(hasBeenEdited := false, isCustomMode := false)
  }

  class LoadTestStateService {
    var testTypeStates: map<TestType, TestTypeState>

    /** The record has an entry for every test type. */
    ghost predicate Valid()
      reads this
    {
      forall t: TestType :: t in testTypeStates
    }

    constructor ()
      ensures Valid()
      ensures forall t: TestType :: testTypeStates[t] == InitialState(t)
    {
      testTypeStates := map[Load := InitialState(Load), Stress := InitialState(Stress),
                            Spike := InitialState(Spike), Soak := InitialState(Soak)];
      new;
      forall t: TestType
        ensures t in testTypeStates && testTypeStates[t] == InitialState(t)
      {
        match t
        case Load =>
        case Stress =>
        case Spike =>
        case Soak =>
      }
    }

    /** `getState`: a copy of the stored state. */
    function GetState(t: TestType): (s: TestTypeState)
      reads this
      requires Valid()
      ensures s == testTypeStates[t]
    {
      testTypeStates[t]
    }

    function HasBeenEdited(t: TestType): (b: bool)
      reads this
      requires Valid()
      ensures b == testTypeStates[t].hasBeenEdited
    {
      testTypeStates[t].hasBeenEdited
    }

    /** Overwrites exactly the fields present in `u`, for `t` only. */
    method UpdateState(t: TestType, u: StateUpdate)
      requires Valid()
      modifies this
      ensures Valid()
      ensures testTypeStates == old(testTypeStates)[t := ApplyUpdate(old(testTypeStates)[t], u)]
    {
      testTypeStates := testTypeStates[t := ApplyUpdate(testTypeStates[t], u)];
    }

    /** Sets `t`'s edited flag; no flag of any type is cleared. */
    method MarkAsEdited(t: TestType)
      requires Valid()
      modifies this
      ensures Valid()
      ensures testTypeStates == old(testTypeStates)[t := old(testTypeStates)[t].(hasBeenEdited := true)]
      ensures HasBeenEdited(t)
      ensures forall t' :: old(HasBeenEdited(t')) ==> HasBeenEdited(t')
    {
      testTypeStates := testTypeStates[t := testTypeStates[t].(hasBeenEdited := true)];
    }

    /** The `forEach` over the record's keys: both flags cleared for every type. */
    method ResetAll()
      requires Valid()
      modifies this
      ensures Valid()
      ensures forall t: TestType :: testTypeStates[t] == ResetFlags(old(testTypeStates)[t])
    {
      var i := 0;
      while i < |AllTestTypes|
        invariant 0 <= i <= |AllTestTypes|
        invariant Valid()
        invariant forall k :: 0 <= k < i ==>
          testTypeStates[AllTestTypes[k]] == ResetFlags(old(testTypeStates)[AllTestTypes[k]])
        invariant forall k :: i <= k < |AllTestTypes| ==>
          testTypeStates[AllTestTypes[k]] == old(testTypeStates)[AllTestTypes[k]]
      {
        var t := AllTestTypes[i];
        testTypeStates := testTypeStates[t := testTypeStates[t].(hasBeenEdited := false, isCustomMode := false)];
        i := i + 1;
      }
      forall t: TestType
        ensures testTypeStates[t] == ResetFlags(old(testTypeStates)[t])
      {
        var k := if t == Load then 0 else if t == Stress then 1 else if t == Spike then 2 else 3;
        assert AllTestTypes[k] == t;
      }
    }
  }

  /** Resetting twice is resetting once. */
  lemma ResetFlagsIdempotent(s: TestTypeState)
    ensures ResetFlags(ResetFlags(s)) == ResetFlags(s)
  {
  }
}
