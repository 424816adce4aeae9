/** The capability rows an arm publishes: parameter bounds, evidence specs and time
    budgets (flyto_robotics/arm_contracts.py).

    How a host judges a spec is its own affair (the judge is not part of this
    model's source); `Meets` reads a spec as the rows describe it: `delta` compares
    the change between two phases with a value, `distance_to` both phases with an
    argument, within a tolerance, and a frame is looked up in the phase. */
module ArmContracts {
  import opened Wrappers
  import opened ArmProfile
  import opened ArmMotion
  import opened ArmCalls

  const DEADLINE_MARGIN_MS := 2000

  datatype Op = Delta | DistanceTo

  datatype Expectation = Value(x: real) | FromArgument(name: string)

  datatype Spec = Spec(observe: Observation, first: PhaseName, second: PhaseName, op: Op, field: string, framed: bool,
                       wanted: Expectation, tolerance: real, settleDrift: Option<real>)

  datatype Bounds = Bounds(min: real, max: real)

  datatype Row = Row(params: map<string, Bounds>, timeoutMs: int, evidence: seq<Spec>)

  function Ceiling(x: real): int {
    -((-x).Floor)
  }

  function Milliseconds(seconds: real): int {
    Ceiling(seconds * 1000.0) + DEADLINE_MARGIN_MS
  }

  function StopBudget(p: ArmProfile): real {
    p.stopSamples as real * p.stopPeriod
  }

  function MoveBudget(p: ArmProfile): real {
    p.moveDeadline + p.settleSamples as real * p.period + StopBudget(p)
  }

  function GripBudget(p: ArmProfile, g: GripperProfile): real {
    p.moveDeadline + g.holdSamples as real * p.period + StopBudget(p)
  }

  function ArrivalSpec(p: ArmProfile, name: string): Spec {
    Spec(JointPositions, After, Settled, DistanceTo, name, true, FromArgument(ArgumentOf(name)),
         p.tolerance + p.settleMaxDrift, Some(p.settleMaxDrift))
  }

  function HeldStillSpec(p: ArmProfile, name: string): Spec {
    Spec(JointPositions, Before, After, Delta, name, true, Value(0.0), p.stopMaxDrift, None)
  }

  function ArrivalSpecs(p: ArmProfile, joints: seq<JointLimit>): seq<Spec> {
    seq(|joints|, i requires 0 <= i < |joints| => ArrivalSpec(p, joints[i].name))
  }

  function HeldStillSpecs(p: ArmProfile, joints: seq<JointLimit>): seq<Spec> {
    seq(|joints|, i requires 0 <= i < |joints| => HeldStillSpec(p, joints[i].name))
  }

  function MoveParams(joints: seq<JointLimit>): map<string, Bounds> {
    if joints == [] then map[]
    else
      var j := joints[|joints| - 1];
      MoveParams(joints[..|joints| - 1])[ArgumentOf(j.name) := Bounds(j.minRad, j.maxRad)]
  }

  method MoveRow(p: ArmProfile) returns (row: Row)
    ensures row == Row(MoveParams(p.joints), Milliseconds(MoveBudget(p)), ArrivalSpecs(p, p.joints))
  {
    var params: map<string, Bounds> := map[];
    var evidence: seq<Spec> := [];
    for i := 0 to |p.joints|
      invariant params == MoveParams(p.joints[..i]) && evidence == ArrivalSpecs(p, p.joints[..i])
    {
      var joint := p.joints[i];
      assert p.joints[..i + 1][..i] == p.joints[..i];
      params := params[ArgumentOf(joint.name) := Bounds(joint.minRad, joint.maxRad)];
      evidence := evidence + [ArrivalSpec(p, joint.name)];
    }
    assert p.joints[..|p.joints|] == p.joints;
    row := Row(params, Milliseconds(MoveBudget(p)), evidence);
  }

  function HaltEvidence(p: ArmProfile): seq<Spec> {
    if p.stopMode.StopHold? then HeldStillSpecs(p, p.joints) else []
  }

  method HaltRow(p: ArmProfile) returns (row: Row)
    ensures row == Row(map[], Milliseconds(StopBudget(p)), HaltEvidence(p))
  {
    var evidence: seq<Spec> := [];
    if p.stopMode.StopHold? {
      for i := 0 to |p.joints|
        invariant evidence == HeldStillSpecs(p, p.joints[..i])
      {
        evidence := evidence + [HeldStillSpec(p, p.joints[i].name)];
      }
      assert p.joints[..|p.joints|] == p.joints;
    }
    row := Row(map[], Milliseconds(StopBudget(p)), evidence);
  }

  function GraspEvidence(g: GripperProfile): seq<Spec> {
    [Spec(HeldObject, Before, After, Delta, HELD_FIELD, false, Value(1.0), 0.0, None),
     Spec(HeldObject, Before, After, Delta, g.joint, false, Value(0.0), g.holdMaxDrift, None)]
  }

  function ReleaseEvidence(g: GripperProfile): seq<Spec> {
    [Spec(GripperPosition, After, Settled, DistanceTo, g.joint, true, FromArgument(RELEASE_ARGUMENT),
          g.tolerance + g.holdMaxDrift, Some(g.holdMaxDrift))]
  }

  function GraspRow(p: ArmProfile, g: GripperProfile): Row {
    Row(map[], Milliseconds(GripBudget(p, g)), GraspEvidence(g))
  }

  function ReleaseRow(p: ArmProfile, g: GripperProfile): Row {
    Row(map[RELEASE_ARGUMENT := if g.releaseRad <= g.openRad then Bounds(g.releaseRad, g.openRad)
                                else Bounds(g.openRad, g.releaseRad)],
        Milliseconds(GripBudget(p, g)), ReleaseEvidence(g))
  }

  // ---------------------------------------------------------------------------
  // Judging a spec
  // ---------------------------------------------------------------------------

  predicate Has(phase: Phase, field: string) {
    field in phase && phase[field].Num?
  }

  predicate InTheFrame(phase: Phase) {
    FRAME_FIELD in phase && phase[FRAME_FIELD] == InFrame
  }

  predicate Expected(spec: Spec, arguments: map<string, real>, first: real, second: real) {
    var want := match spec.wanted case Value(x) => Some(x)
                                    case FromArgument(name) => if name in arguments then Some(arguments[name]) else None;
    && want.Some?
    && (match spec.op
        case Delta => Abs(second - first - want.value) <= spec.tolerance
        case DistanceTo => Abs(first - want.value) <= spec.tolerance && Abs(second - want.value) <= spec.tolerance)
    && (spec.settleDrift.Some? ==> Abs(second - first) <= spec.settleDrift.value)
  }

  predicate Meets(spec: Spec, observations: map<Observation, map<PhaseName, Phase>>, arguments: map<string, real>) {
    && spec.observe in observations
    && spec.first in observations[spec.observe] && spec.second in observations[spec.observe]
    && (var first, second := observations[spec.observe][spec.first], observations[spec.observe][spec.second];
        && (spec.framed ==> InTheFrame(first) && InTheFrame(second))
        && Has(first, spec.field) && Has(second, spec.field)
        && Expected(spec, arguments, first[spec.field].value, second[spec.field].value))
  }

  predicate MeetsAll(specs: seq<Spec>, observations: map<Observation, map<PhaseName, Phase>>, arguments: map<string, real>) {
    forall i :: 0 <= i < |specs| ==> Meets(specs[i], observations, arguments)
  }

  // ---------------------------------------------------------------------------
  // The row's parameters are exactly what the adapter accepts
  // ---------------------------------------------------------------------------

  predicate InBounds(b: Bounds, a: Argument) {
    a.Number? && b.min <= a.x <= b.max
  }

  lemma {:induction false} MoveParamsKeys(joints: seq<JointLimit>)
    ensures forall name :: name in MoveParams(joints) <==> exists i :: 0 <= i < |joints| && name == ArgumentOf(joints[i].name)
  {
    if joints != [] {
      MoveParamsKeys(joints[..|joints| - 1]);
      assert joints == joints[..|joints| - 1] + [joints[|joints| - 1]];
    }
  }

  lemma ArgumentInjective(m: string, n: string)
    requires ArgumentOf(m) == ArgumentOf(n)
    ensures m == n
  {
    assert ArgumentOf(m)[..|ArgumentOf(m)| - |ARGUMENT_SUFFIX|] == m;
    assert ArgumentOf(n)[..|ArgumentOf(n)| - |ARGUMENT_SUFFIX|] == n;
  }

  lemma {:induction false} MoveParamsBounds(joints: seq<JointLimit>, i: nat)
    requires i < |joints| && forall k, l :: 0 <= k < l < |joints| ==> joints[k].name != joints[l].name
    ensures ArgumentOf(joints[i].name) in MoveParams(joints)
    ensures MoveParams(joints)[ArgumentOf(joints[i].name)] == Bounds(joints[i].minRad, joints[i].maxRad)
  {
    var last := joints[|joints| - 1];
    if i < |joints| - 1 {
      MoveParamsBounds(joints[..|joints| - 1], i);
      if ArgumentOf(joints[i].name) == ArgumentOf(last.name) {
        ArgumentInjective(joints[i].name, last.name);
      }
    }
  }

  lemma {:induction false} LimitOfJoint(joints: seq<JointLimit>, i: nat)
    requires i < |joints| && forall k, l :: 0 <= k < l < |joints| ==> joints[k].name != joints[l].name
    ensures (exists j :: j in joints && j.name == joints[i].name) && LimitIn(joints, joints[i].name) == joints[i]
  {
    assert joints[i] in joints;
    if i > 0 {
      LimitOfJoint(joints[1..], i - 1);
    }
  }

  lemma BoundsOfJoint(p: ArmProfile, n: string)
    requires p.Valid() && n in p.Names()
    ensures ArgumentOf(n) in MoveParams(p.joints)
    ensures MoveParams(p.joints)[ArgumentOf(n)] == Bounds(p.Limit(n).minRad, p.Limit(n).maxRad)
  {
    hide MoveParams;
    var i :| 0 <= i < |p.joints| && p.joints[i].name == n;
    MoveParamsBounds(p.joints, i);
    LimitOfJoint(p.joints, i);
  }

  lemma ParamsAreArguments(p: ArmProfile)
    ensures MoveParams(p.joints).Keys == Arguments(p)
  {
    hide MoveParams;
    MoveParamsKeys(p.joints);
    forall name | name in MoveParams(p.joints)
      ensures name in Arguments(p)
    {
      var i :| 0 <= i < |p.joints| && name == ArgumentOf(p.joints[i].name);
      assert p.joints[i].name in p.Names();
    }
  }

  /** So with a release: the row's one parameter takes exactly what the adapter does. */
  lemma ReleaseBoundsAreTargets(p: ArmProfile, g: GripperProfile, arguments: map<string, Argument>)
    ensures ReleaseTarget(g, arguments).Some?
            <==> && arguments.Keys == ReleaseRow(p, g).params.Keys
                 && forall name :: name in arguments ==> InBounds(ReleaseRow(p, g).params[name], arguments[name])
  {
    if arguments.Keys == {RELEASE_ARGUMENT} {
      assert RELEASE_ARGUMENT in arguments;
    }
  }

  lemma TargetsOf(p: ArmProfile, arguments: map<string, Argument>, pose: Pose)
    requires arguments.Keys == Arguments(p) && pose.Keys == p.Names()
    requires forall n :: n in p.Names() ==> ArgumentOf(n) in arguments && arguments[ArgumentOf(n)] == Number(pose[n])
    requires forall n :: n in p.Names() ==> InLimit(p.Limit(n), arguments[ArgumentOf(n)])
    ensures Targets(p, arguments) == Some(pose)
  {
    hide Arguments, InLimit, ArgumentOf;
    assert pose == map n | n in p.Names() :: arguments[ArgumentOf(n)].x;
  }

  lemma SameBounds(p: ArmProfile, arguments: map<string, Argument>)
    requires p.Valid() && arguments.Keys == MoveParams(p.joints).Keys == Arguments(p)
    ensures (forall n :: n in p.Names() ==> InLimit(p.Limit(n), arguments[ArgumentOf(n)]))
            <==> forall name :: name in arguments ==> InBounds(MoveParams(p.joints)[name], arguments[name])
  {
    hide MoveParams;
    var params := MoveParams(p.joints);
    forall n | n in p.Names()
      ensures ArgumentOf(n) in params
      ensures InLimit(p.Limit(n), arguments[ArgumentOf(n)]) <==> InBounds(params[ArgumentOf(n)], arguments[ArgumentOf(n)])
    {
      BoundsOfJoint(p, n);
    }
    forall name | name in arguments
      ensures exists n :: n in p.Names() && name == ArgumentOf(n)
    {
    }
  }

  /** A host that enforces the row's parameters lets through exactly the arguments
      the adapter takes as targets. */
  lemma RowBoundsAreTargets(p: ArmProfile, arguments: map<string, Argument>)
    requires p.Valid()
    ensures Targets(p, arguments).Some?
            <==> && arguments.Keys == MoveParams(p.joints).Keys
                 && forall name :: name in arguments ==> InBounds(MoveParams(p.joints)[name], arguments[name])
  {
    hide MoveParams, InLimit, InBounds;
    ParamsAreArguments(p);
    if arguments.Keys == Arguments(p) {
      SameBounds(p, arguments);
    }
  }
}
