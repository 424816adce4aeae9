/** What a completed call proves: its phases satisfy the evidence its row publishes,
    exactly when no joint takes the name of a phase's own key
    (flyto_robotics/arm_adapter.py, flyto_robotics/arm_contracts.py). */
module ArmEvidence {
  import opened ArmProfile
  import opened ArmBus
  import opened ArmMotion
  import opened ArmGrip
  import opened ArmCalls
  import opened ArmSetpoints
  import opened ArmSafety
  import opened ArmContracts

  /** No joint of one pose is farther than `drift` from another. */
  predicate Within(names: set<string>, pose: Pose, reference: Pose, drift: real)
    requires pose.Keys == reference.Keys == names
  {
    forall n :: n in names ==> Abs(pose[n] - reference[n]) <= drift
  }

  /** The numbers among a call's arguments, as the judge of its evidence has them. */
  function Numbers(arguments: map<string, Argument>): map<string, real> {
    map k | k in arguments && arguments[k].Number? :: arguments[k].x
  }

  // ---------------------------------------------------------------------------
  // Drift
  // ---------------------------------------------------------------------------

  lemma {:induction false} MaxDriftIsLeastBound(joints: seq<JointLimit>, pose: Pose, reference: Pose, least: real)
    requires forall j :: j in joints ==> j.name in pose && j.name in reference
    ensures var drift := MaxDrift(joints, pose, reference, least);
            && least <= drift
            && (forall j :: j in joints ==> Abs(pose[j.name] - reference[j.name]) <= drift)
            && (drift == least || exists j :: j in joints && drift == Abs(pose[j.name] - reference[j.name]))
  {
    if joints != [] {
      var here := Max(least, Abs(pose[joints[0].name] - reference[joints[0].name]));
      MaxDriftIsLeastBound(joints[1..], pose, reference, here);
      assert joints == [joints[0]] + joints[1..];
    }
  }

  /** The drift a sampling reports is at least that of its last sample. */
  lemma {:induction false} SampledIsWithin<S>(p: ArmProfile, d: Driver<S>, a: Arm<S>, reference: Pose, count: nat,
                                              interval: real, last: Pose, drift: real)
    requires reference.Keys == p.Names() && last.Keys == p.Names() && Within(p.Names(), last, reference, drift)
    ensures var sampled := Sampled(p, d, a, reference, count, interval, last, drift).1;
            sampled.Ok? ==> Within(p.Names(), sampled.value.0, reference, sampled.value.1)
    decreases count
  {
    hide ReadPose, MaxDrift, Abs;
    if count > 0 {
      var (after, pose) := ReadPose(p, d, Slept(a, interval));
      if pose.Ok? {
        MaxDriftIsLeastBound(p.joints, pose.value, reference, drift);
        SampledIsWithin(p, d, after, reference, count - 1, interval, pose.value,
                        MaxDrift(p.joints, pose.value, reference, drift));
      }
    }
  }

  lemma {:induction false} SampledJawsWithin<S>(p: ArmProfile, joint: string, d: Driver<S>, a: Arm<S>, reference: real,
                                                count: nat, last: real, drift: real)
    requires joint in p.Names() && Abs(last - reference) <= drift
    ensures var sampled := SampledJaws(p, joint, d, a, reference, count, last, drift).1;
            sampled.Ok? ==> Abs(sampled.value.0 - reference) <= sampled.value.1
    decreases count
  {
    hide ReadPose;
    if count > 0 {
      var (after, pose) := ReadPose(p, d, Slept(a, p.period));
      if pose.Ok? {
        var position := pose.value[joint];
        SampledJawsWithin(p, joint, d, after, reference, count - 1, position, Max(drift, Abs(position - reference)));
      }
    }
  }

  // ---------------------------------------------------------------------------
  // A completed move
  // ---------------------------------------------------------------------------

  /** Arrived within tolerance of every target and stayed there. */
  ghost predicate ArrivedAndSettled(p: ArmProfile, targets: Pose, after: Pose, settled: Pose) {
    && after.Keys == settled.Keys == targets.Keys == p.Names()
    && Within(p.Names(), after, targets, p.tolerance) && Within(p.Names(), settled, after, p.settleMaxDrift)
  }

  function SettledPhases(before: Pose, after: Pose, settled: Pose): map<PhaseName, Phase> {
    MovePhases(before, after)[PhaseName.Settled := PhaseOf(settled)]
  }

  lemma SettledIsWithin<S>(p: ArmProfile, d: Driver<S>, a: Arm<S>, targets: Pose, before: Pose, after: Pose)
    returns (settled: Pose)
    requires after.Keys == targets.Keys == p.Names() && Within(p.Names(), after, targets, p.tolerance)
    requires var ended := Settle(p, d, a, before, after).1; ended.Ok? && ended.value.outcome.Completed?
    ensures ArrivedAndSettled(p, targets, after, settled)
    ensures Settle(p, d, a, before, after).1.value.observations == map[JointPositions := SettledPhases(before, after, settled)]
  {
    hide Sampled;
    var (a1, sampled) := Sampled(p, d, a, after, p.settleSamples, p.period, after, 0.0);
    SampledIsWithin(p, d, a, after, p.settleSamples, p.period, after, 0.0);
    settled := sampled.value.0;
  }

  lemma LoopArrives<S>(p: ArmProfile, d: Driver<S>, before: Pose, targets: Pose, deadline: real, a: Arm<S>)
    requires p.Valid() && before.Keys == targets.Keys == p.Names()
    ensures var (last, ending) := Looped(p, d, targets, deadline, StartLoop(a, before));
            ending.Arrived? ==> Within(p.Names(), last.positions, targets, p.tolerance)
  {
    hide Looped, PoseAlong, LineWrites, MoveStep;
    StepIsPositive(p);
    PoseFollowsLine(before, targets, MoveStep(p), 0);
    var n := LoopWritesLine(p, d, before, targets, deadline, StartLoop(a, before), 0);
  }

  /** A move completes only by arriving at every target and staying there, and
      reports the poses it judged. */
  lemma CompletedMoveArrived<S>(p: ArmProfile, d: Driver<S>, a: Arm<S>, targets: Pose)
    returns (before: Pose, after: Pose, settled: Pose)
    requires p.Valid() && targets.Keys == p.Names()
    requires var ran := RunMove(p, d, a, targets).1; ran.Ok? && ran.value.outcome.Completed?
    ensures ArrivedAndSettled(p, targets, after, settled)
    ensures RunMove(p, d, a, targets).1.value.observations == map[JointPositions := SettledPhases(before, after, settled)]
  {
    hide Prepare, Looped, Settle, Stop, SettledPhases, Within, ArrivedAndSettled;
    var (a1, ready) := Prepare(p, d, a, Anywhere());
    NotReadyNeverCompletes(p, d, a, Anywhere());
    before := ready.value.before;
    var deadline := a1.now + p.moveDeadline;
    LoopArrives(p, d, before, targets, deadline, a1);
    var (last, ending) := Looped(p, d, targets, deadline, StartLoop(a1, before));
    after := last.positions;
    settled := SettledIsWithin(p, d, last.arm, targets, before, after);
  }

  lemma NotReadyNeverCompletes<S>(p: ArmProfile, d: Driver<S>, a: Arm<S>, fromHere: Pose -> bool)
    ensures var ready := Prepare(p, d, a, fromHere).1;
            ready.Ok? && ready.value.NotReady? ==> !ready.value.result.outcome.Completed?
  {
    hide ReadPose, EnableTorque;
  }

  lemma PhaseOfNames(pose: Pose, names: set<string>, n: string)
    requires pose.Keys == names && n in names
    ensures Has(PhaseOf(pose), n) && PhaseOf(pose)[n].value == pose[n]
    ensures InTheFrame(PhaseOf(pose)) <==> FRAME_FIELD !in names
  {
  }

  lemma Triangle(x: real, y: real, z: real, near: real, drift: real)
    requires Abs(y - z) <= near && Abs(x - y) <= drift
    ensures Abs(x - z) <= near + drift
  {
  }

  lemma ArrivalIsMet(p: ArmProfile, targets: Pose, arguments: map<string, real>, before: Pose, after: Pose, settled: Pose,
                     name: string)
    requires p.Valid() && ArrivedAndSettled(p, targets, after, settled) && name in p.Names()
    requires ArgumentOf(name) in arguments && arguments[ArgumentOf(name)] == targets[name]
    ensures Meets(ArrivalSpec(p, name), map[JointPositions := SettledPhases(before, after, settled)], arguments)
            <==> FRAME_FIELD !in p.Names()
  {
    hide PhaseOf, Has, InTheFrame, ArgumentOf, Abs;
    PhaseOfNames(after, p.Names(), name);
    PhaseOfNames(settled, p.Names(), name);
    Triangle(settled[name], after[name], targets[name], p.tolerance, p.settleMaxDrift);
  }

  /** A completed move meets every arrival spec its row publishes if and only if no
      joint is named like the frame key of a phase. */
  lemma CompletedMoveMeetsItsRow<S>(p: ArmProfile, d: Driver<S>, a: Arm<S>, request: Request)
    requires p.Valid() && Move(p, d, a, request).1.outcome.Completed?
    ensures MeetsAll(ArrivalSpecs(p, p.joints), Move(p, d, a, request).1.observations, Numbers(request.arguments))
            <==> FRAME_FIELD !in p.Names()
  {
    hide RunMove, Meets, ArrivalSpec, ArrivedAndSettled, SettledPhases, ArgumentOf, InLimit;
    var targets := Targets(p, request.arguments).value;
    var before, after, settled := CompletedMoveArrived(p, d, a, targets);
    var observations := map[JointPositions := SettledPhases(before, after, settled)];
    forall i | 0 <= i < |p.joints|
      ensures Meets(ArrivalSpecs(p, p.joints)[i], observations, Numbers(request.arguments)) <==> FRAME_FIELD !in p.Names()
    {
      var name := p.joints[i].name;
      TargetIsArgument(p, request.arguments, name);
      ArrivalIsMet(p, targets, Numbers(request.arguments), before, after, settled, name);
    }
    assert MeetsAll(ArrivalSpecs(p, p.joints), observations, Numbers(request.arguments))
           ==> Meets(ArrivalSpecs(p, p.joints)[0], observations, Numbers(request.arguments));
  }

  lemma TargetIsArgument(p: ArmProfile, arguments: map<string, Argument>, name: string)
    requires Targets(p, arguments).Some? && name in p.Names()
    ensures ArgumentOf(name) in Numbers(arguments) && Numbers(arguments)[ArgumentOf(name)] == Targets(p, arguments).value[name]
  {
    hide ArgumentOf;
  }

  // ---------------------------------------------------------------------------
  // A confirmed stop
  // ---------------------------------------------------------------------------

  lemma ConfirmedHoldStayed<S>(p: ArmProfile, d: Driver<S>, a: Arm<S>) returns (held: Pose, after: Pose)
    requires p.Valid() && p.stopMode.StopHold? && Stop(p, d, a).1.confirmed
    ensures held.Keys == after.Keys == p.Names() && Within(p.Names(), after, held, p.stopMaxDrift)
    ensures Stop(p, d, a).1.observations == HoldObservations(held, after)
  {
    hide ReadTorque, WriteGoals, SetTorque, Sampled, AllOn, HoldObservations, ReadPose;
    var (a1, first) := ReadPose(p, d, a);
    held := first.value;
    var a2 := WriteGoals(d, a1, ByStop, held).0;
    var a3 := SetTorque(d, a2, ByStop, true).0;
    var a4 := ReadTorque(p, d, a3).0;
    SampledIsWithin(p, d, a4, held, p.stopSamples, p.stopPeriod, held, 0.0);
    after := Sampled(p, d, a4, held, p.stopSamples, p.stopPeriod, held, 0.0).1.value.0;
  }

  lemma HeldStillIsMet(p: ArmProfile, held: Pose, after: Pose, name: string)
    requires held.Keys == after.Keys == p.Names() && name in p.Names() && Within(p.Names(), after, held, p.stopMaxDrift)
    ensures Meets(HeldStillSpec(p, name), HoldObservations(held, after), map[]) <==> FRAME_FIELD !in p.Names()
  {
    hide PhaseOf, Has, InTheFrame;
    PhaseOfNames(held, p.Names(), name);
    PhaseOfNames(after, p.Names(), name);
  }

  /** A halt that completes in hold mode meets its row's evidence under the same
      condition; a torque-off halt publishes none. */
  lemma CompletedHaltMeetsItsRow<S>(p: ArmProfile, d: Driver<S>, a: Arm<S>)
    requires p.Valid() && StopResult(Stop(p, d, a).1).outcome.Completed?
    ensures MeetsAll(HaltEvidence(p), StopResult(Stop(p, d, a).1).observations, map[])
            <==> (p.stopMode.StopHold? ==> FRAME_FIELD !in p.Names())
  {
    hide Stop, Meets, HeldStillSpec, HoldObservations;
    if p.stopMode.StopHold? {
      var held, after := ConfirmedHoldStayed(p, d, a);
      forall i | 0 <= i < |p.joints|
        ensures Meets(HaltEvidence(p)[i], HoldObservations(held, after), map[]) <==> FRAME_FIELD !in p.Names()
      {
        HeldStillIsMet(p, held, after, p.joints[i].name);
      }
      assert MeetsAll(HaltEvidence(p), HoldObservations(held, after), map[])
             ==> Meets(HaltEvidence(p)[0], HoldObservations(held, after), map[]);
    }
  }
}
