/** What a completed grasp or release proves
    (flyto_robotics/arm_adapter.py, flyto_robotics/arm_contracts.py). */
module ArmGripEvidence {
  import opened Wrappers
  import opened ArmProfile
  import opened ArmBus
  import opened ArmMotion
  import opened ArmGrip
  import opened ArmCalls
  import opened ArmContracts
  import opened ArmEvidence

  // ---------------------------------------------------------------------------
  // A completed grasp
  // ---------------------------------------------------------------------------

  /** Jaws that stopped on something and stayed there, short of closed. */
  predicate Gripping(g: GripperProfile, contact: real, settled: real) {
    Abs(settled - contact) <= g.holdMaxDrift && g.Gap(settled) >= g.minGap
  }

  function GraspObservations(g: GripperProfile, start: real, contact: real, settled: real)
    : map<Observation, map<PhaseName, Phase>>
  {
    map[GripperPosition := JawPhases(g.joint, start, contact)[PhaseName.Settled := JawPhase(g.joint, settled)],
        HeldObject := map[Before := HeldPhase(g.joint, 0.0, contact), After := HeldPhase(g.joint, 1.0, settled)]]
  }

  lemma ConfirmedHoldGrips<S>(p: ArmProfile, g: GripperProfile, d: Driver<S>, a: Arm<S>, start: real, contact: real)
    returns (settled: real)
    requires g.joint in p.Names()
    requires var ran := ConfirmHold(p, g, d, a, start, contact).1; ran.Ok? && ran.value.outcome.Completed?
    ensures Gripping(g, contact, settled)
    ensures var ran := ConfirmHold(p, g, d, a, start, contact).1;
            ran.value.observations == GraspObservations(g, start, contact, settled) && ran.value.held == Some(true)
  {
    hide SampledJaws, Stop, JawPhases, JawPhase, HeldPhase;
    SampledJawsWithin(p, g.joint, d, a, contact, g.holdSamples, contact, 0.0);
    settled := SampledJaws(p, g.joint, d, a, contact, g.holdSamples, contact, 0.0).1.value.0;
  }

  lemma {:induction false} ContactIsShortOfClosed<S>(p: ArmProfile, g: GripperProfile, d: Driver<S>, grasp: bool, start: real,
                                                     target: real, deadline: real, l: Grip<S>)
    requires 0.0 < p.period && g.joint in p.Names()
    ensures var (last, ending) := GripLooped(p, g, d, grasp, start, target, deadline, l);
            && (ending.Contact? ==> grasp && g.Gap(last.position) >= g.minGap)
            && (ending.ReachedTarget? ==> Abs(last.position - target) <= g.tolerance)
    decreases PassesLeft(l.arm.now, deadline, p.period)
  {
    hide GripPass;
    var (next, ending) := GripPass(p, g, d, grasp, start, target, deadline, l);
    PassEndsAsJudged(p, g, d, grasp, start, target, deadline, l);
    if ending.None? {
      OnePassLess(l.arm.now, deadline, p.period);
      ContactIsShortOfClosed(p, g, d, grasp, start, target, deadline, next);
    }
  }

  lemma PassEndsAsJudged<S>(p: ArmProfile, g: GripperProfile, d: Driver<S>, grasp: bool, start: real, target: real,
                            deadline: real, l: Grip<S>)
    requires g.joint in p.Names()
    ensures var (next, ending) := GripPass(p, g, d, grasp, start, target, deadline, l);
            && (ending == Some(Contact) ==> grasp && g.Gap(next.position) >= g.minGap)
            && (ending == Some(ReachedTarget) ==> Abs(next.position - target) <= g.tolerance)
  {
    hide ReadPose, WriteGoals, Toward, JawsStopped, Progressed;
  }

  /** A grasp completes only from a contact position at least the object gap from
      closed, and with a last sample as near to it as the hold allows. */
  lemma CompletedGraspGrips<S>(p: ArmProfile, g: GripperProfile, d: Driver<S>, a: Arm<S>, target: real)
    returns (start: real, contact: real, settled: real)
    requires p.Valid() && p.gripper == Some(g)
    requires var ran := RunGrip(p, g, d, a, true, target).1; ran.Ok? && ran.value.outcome.Completed?
    ensures Gripping(g, contact, settled) && g.Gap(contact) >= g.minGap
    ensures var ran := RunGrip(p, g, d, a, true, target).1;
            ran.value.observations == GraspObservations(g, start, contact, settled) && ran.value.held == Some(true)
  {
    hide Prepare, GripLooped, ConfirmHold, Stop, ConfirmOpen, GraspObservations, MayStart;
    var (a1, ready) := Prepare(p, d, a, MayStart(g, true));
    NotReadyNeverCompletes(p, d, a, MayStart(g, true));
    start := ready.value.before[g.joint];
    var l := Grip(a1, start, start, a1.now, start);
    var deadline := a1.now + p.moveDeadline;
    ContactIsShortOfClosed(p, g, d, true, start, target, deadline, l);
    var (last, ending) := GripLooped(p, g, d, true, start, target, deadline, l);
    contact := last.position;
    settled := ConfirmedHoldGrips(p, g, d, last.arm, start, contact);
  }

  /** So a completed grasp never has its jaws within tolerance of closed, whichever
      way they close. */
  lemma GrippingIsNotClosed(p: ArmProfile, g: GripperProfile, contact: real, settled: real)
    requires p.Valid() && p.gripper == Some(g) && Gripping(g, contact, settled) && g.Gap(contact) >= g.minGap
    ensures Abs(settled - g.closedRad) > g.tolerance && Abs(contact - g.closedRad) > g.tolerance
  {
    assert g.Gap(g.closedRad) == 0.0;
    GapMoves(g, settled, g.closedRad);
    GapMoves(g, contact, g.closedRad);
  }

  lemma HeldPhaseReads(joint: string, held: real, position: real)
    ensures Has(HeldPhase(joint, held, position), HELD_FIELD) && Has(HeldPhase(joint, held, position), joint)
    ensures HeldPhase(joint, held, position)[joint].value == position
    ensures HeldPhase(joint, held, position)[HELD_FIELD].value == if joint == HELD_FIELD then position else held
  {
  }

  lemma GraspSpecsMet(g: GripperProfile, start: real, contact: real, settled: real)
    requires Gripping(g, contact, settled)
    ensures MeetsAll(GraspEvidence(g), GraspObservations(g, start, contact, settled), map[])
            <==> (g.joint != HELD_FIELD || settled - contact == 1.0)
  {
    hide HeldPhase, Has;
    HeldPhaseReads(g.joint, 0.0, contact);
    HeldPhaseReads(g.joint, 1.0, settled);
    var observations := GraspObservations(g, start, contact, settled);
    assert Meets(GraspEvidence(g)[1], observations, map[]);
    assert Meets(GraspEvidence(g)[0], observations, map[]) <==> (g.joint != HELD_FIELD || settled - contact == 1.0);
  }

  /** A completed grasp meets its row's evidence if and only if the gripper's joint
      is not named like the held key: of a joint so named both specs judge the jaws,
      which would have to move exactly one radian, more than a hold drift under one
      radian allows. */
  lemma CompletedGraspMeetsItsRow<S>(p: ArmProfile, d: Driver<S>, a: Arm<S>, request: Request)
    returns (contact: real, settled: real)
    requires p.Valid() && request.capability.Grasps? && Grips(p, d, a, request).1.outcome.Completed?
    ensures var g, observations := p.gripper.value, Grips(p, d, a, request).1.observations;
            && Abs(settled - g.closedRad) > g.tolerance && Abs(settled - contact) <= g.holdMaxDrift
            && Grips(p, d, a, request).1.held == Some(true)
            && (MeetsAll(GraspRow(p, g).evidence, observations, map[]) <==> (g.joint != HELD_FIELD || settled - contact == 1.0))
            && (g.holdMaxDrift < 1.0 ==> (MeetsAll(GraspRow(p, g).evidence, observations, map[]) <==> g.joint != HELD_FIELD))
  {
    hide RunGrip, MeetsAll, GraspObservations, GraspEvidence, GripTarget;
    var g := p.gripper.value;
    var start;
    start, contact, settled := CompletedGraspGrips(p, g, d, a, GripTarget(g, request).value);
    GraspSpecsMet(g, start, contact, settled);
    GrippingIsNotClosed(p, g, contact, settled);
  }

  // ---------------------------------------------------------------------------
  // A completed release
  // ---------------------------------------------------------------------------

  function ReleaseObservations(g: GripperProfile, start: real, arrived: real, settled: real)
    : map<Observation, map<PhaseName, Phase>>
  {
    map[GripperPosition := JawPhases(g.joint, start, arrived)[PhaseName.Settled := JawPhase(g.joint, settled)]]
  }

  /** Jaws that reached the target and stayed there. */
  predicate StayedOpen(g: GripperProfile, target: real, arrived: real, settled: real) {
    && Abs(arrived - target) <= g.tolerance && Abs(settled - target) <= g.tolerance
    && Abs(settled - arrived) <= g.holdMaxDrift
  }

  lemma ConfirmedOpenStays<S>(p: ArmProfile, g: GripperProfile, d: Driver<S>, a: Arm<S>, start: real, arrived: real,
                              target: real) returns (settled: real)
    requires g.joint in p.Names() && Abs(arrived - target) <= g.tolerance
    requires var ran := ConfirmOpen(p, g, d, a, start, arrived, target).1; ran.Ok? && ran.value.outcome.Completed?
    ensures StayedOpen(g, target, arrived, settled)
    ensures ConfirmOpen(p, g, d, a, start, arrived, target).1.value.observations
            == ReleaseObservations(g, start, arrived, settled)
  {
    hide SampledJaws, JawPhases, JawPhase;
    SampledJawsWithin(p, g.joint, d, a, arrived, g.holdSamples, arrived, 0.0);
    settled := SampledJaws(p, g.joint, d, a, arrived, g.holdSamples, arrived, 0.0).1.value.0;
  }

  lemma CompletedReleaseStays<S>(p: ArmProfile, g: GripperProfile, d: Driver<S>, a: Arm<S>, target: real)
    returns (start: real, arrived: real, settled: real)
    requires p.Valid() && p.gripper == Some(g)
    requires var ran := RunGrip(p, g, d, a, false, target).1; ran.Ok? && ran.value.outcome.Completed?
    ensures StayedOpen(g, target, arrived, settled)
    ensures RunGrip(p, g, d, a, false, target).1.value.observations == ReleaseObservations(g, start, arrived, settled)
  {
    hide Prepare, GripLooped, ConfirmHold, Stop, ConfirmOpen, ReleaseObservations, MayStart;
    var (a1, ready) := Prepare(p, d, a, MayStart(g, false));
    NotReadyNeverCompletes(p, d, a, MayStart(g, false));
    start := ready.value.before[g.joint];
    var l := Grip(a1, start, start, a1.now, start);
    var deadline := a1.now + p.moveDeadline;
    ContactIsShortOfClosed(p, g, d, false, start, target, deadline, l);
    var (last, ending) := GripLooped(p, g, d, false, start, target, deadline, l);
    arrived := last.position;
    settled := ConfirmedOpenStays(p, g, d, last.arm, start, arrived, target);
  }

  /** In either closing direction, jaws a release left open read as open to the
      next grasp. */
  lemma ReleasedIsOpenEnough(p: ArmProfile, g: GripperProfile, target: real, arrived: real, settled: real)
    requires p.Valid() && p.gripper == Some(g) && g.InReleaseRange(target) && StayedOpen(g, target, arrived, settled)
    ensures OpenEnough(g, settled)
  {
    ReleaseRangeIsOpen(g, p.Limit(g.joint), target);
    GapMoves(g, settled, target);
  }

  lemma JawPhaseReads(joint: string, position: real)
    ensures Has(JawPhase(joint, position), joint) && JawPhase(joint, position)[joint].value == position
    ensures InTheFrame(JawPhase(joint, position)) <==> joint != FRAME_FIELD
  {
  }

  lemma ReleaseSpecMet(g: GripperProfile, target: real, start: real, arrived: real, settled: real, arguments: map<string, real>)
    requires StayedOpen(g, target, arrived, settled) && 0.0 <= g.holdMaxDrift
    requires RELEASE_ARGUMENT in arguments && arguments[RELEASE_ARGUMENT] == target
    ensures MeetsAll(ReleaseEvidence(g), ReleaseObservations(g, start, arrived, settled), arguments)
            <==> g.joint != FRAME_FIELD
  {
    hide JawPhase, Has, InTheFrame;
    JawPhaseReads(g.joint, arrived);
    JawPhaseReads(g.joint, settled);
    assert Meets(ReleaseEvidence(g)[0], ReleaseObservations(g, start, arrived, settled), arguments) <==> g.joint != FRAME_FIELD;
  }

  /** A completed release meets its row's evidence if and only if the gripper's joint
      is not named like the frame key, and leaves its jaws where a grasp may start. */
  lemma CompletedReleaseMeetsItsRow<S>(p: ArmProfile, d: Driver<S>, a: Arm<S>, request: Request) returns (settled: real)
    requires p.Valid() && request.capability.Releases? && Grips(p, d, a, request).1.outcome.Completed?
    ensures var g := p.gripper.value;
            && (MeetsAll(ReleaseRow(p, g).evidence, Grips(p, d, a, request).1.observations, Numbers(request.arguments))
                <==> g.joint != FRAME_FIELD)
            && OpenEnough(g, settled)
            && (exists start, arrived ::
                  Grips(p, d, a, request).1.observations == ReleaseObservations(g, start, arrived, settled))
  {
    hide RunGrip, MeetsAll, ReleaseObservations, ReleaseEvidence, StayedOpen;
    var g := p.gripper.value;
    var target := ReleaseTarget(g, request.arguments).value;
    var start, arrived;
    start, arrived, settled := CompletedReleaseStays(p, g, d, a, target);
    ReleaseSpecMet(g, target, start, arrived, settled, Numbers(request.arguments));
    ReleasedIsOpenEnough(p, g, target, arrived, settled);
  }

  /** A grasp that reads jaws where a release left them is refused exactly when a
      joint reads outside its limits, which a release to the open limit itself can
      cause: its tolerance reaches past the limit. */
  lemma GraspAfterRelease<S>(p: ArmProfile, g: GripperProfile, d: Driver<S>, a: Arm<S>)
    requires p.Valid() && p.gripper == Some(g) && !MotionBlocked(p, a)
    requires var read_ := ReadPose(p, d, a).1; read_.Ok? && OpenEnough(g, read_.value[g.joint])
    ensures Grips(p, d, a, Request("", Grasps, map[])).1.outcome.Refused? <==> !p.InLimits(ReadPose(p, d, a).1.value)
  {
    hide ReadPose, GripLooped, EnableTorque, EndGrip, OpenEnough;
    var (a1, ready) := Prepare(p, d, a, MayStart(g, true));
    if p.InLimits(ReadPose(p, d, a).1.value) && ready.Ok? && ready.value.Ready? {
      var start := ready.value.before[g.joint];
      var l := Grip(a1, start, start, a1.now, start);
      var (last, ending) := GripLooped(p, g, d, true, start, g.closedRad, a1.now + p.moveDeadline, l);
      GripEndsUnrefused(p, g, d, true, start, g.closedRad, last, ending);
    }
  }

  lemma GripEndsUnrefused<S>(p: ArmProfile, g: GripperProfile, d: Driver<S>, grasp: bool, start: real, target: real, l: Grip<S>,
                             ending: GripEnding)
    requires g.joint in p.Names()
    ensures var ran := EndGrip(p, g, d, grasp, start, target, l, ending).1; ran.Ok? ==> !ran.value.outcome.Refused?
  {
    hide Stop, SampledJaws;
  }
}
