/** Arms of one joint, by its name: their calls complete, and what they publish as
    evidence is met or not (flyto_robotics/arm_adapter.py,
    flyto_robotics/arm_contracts.py). */
module ArmExample {
  import opened Wrappers
  import opened ArmProfile
  import opened ArmBus
  import opened ArmMotion
  import opened ArmGrip
  import opened ArmCalls
  import opened ArmSetpoints
  import opened ArmContracts
  import opened ArmEvidence
  import opened ArmGripEvidence
  import opened ArmLiveness
  import opened ArmGraspLiveness

  function OneGripper(name: string): GripperProfile {
    GripperProfile(name, 0.0, 1.0, 0.5, 1.0, 0.01, 0.05, 1, 0.01)
  }

  /** A profile the parser accepts, whatever the joint is called. */
  function OneJoint(name: string): ArmProfile {
    ArmProfile([JointLimit(name, 0.0, 1.0)], true, 0.01, 1.0, 0.1, 10.0, 1.0, 0.001, 1, 0.01, StopHold, 1, 0.1, 0.01,
               Some(OneGripper(name)))
  }

  lemma OneJointIsValid(name: string)
    ensures OneJoint(name).Valid() && OneJoint(name).Names() == {name}
    ensures OneJoint(name).Limit(name) == JointLimit(name, 0.0, 1.0)
    ensures MoveStep(OneJoint(name)) == 0.1 && GripStep(OneJoint(name), OneGripper(name)) == 0.1
  {
    assert OneJoint(name).joints[0] in OneJoint(name).joints;
  }

  /** A simulated arm with its joint at some position. */
  function NewArm(name: string, at: real): Arm<Sim> {
    Arm(NewSim({name}, map[name := at], true, 0.1), 0.0, false, false, [])
  }

  lemma NewArmRests(name: string, at: real)
    ensures NewArm(name, at).bus.Valid() && Servoed(NewArm(name, at).bus) == map[name := at]
    ensures Healthy(OneJoint(name), NewArm(name, at).bus)
    ensures !MotionBlocked(OneJoint(name), NewArm(name, at))
  {
    OneJointIsValid(name);
    NewBusIsHealthy(OneJoint(name), {name}, map[name := at], true, 0.1);
    var s := NewArm(name, at).bus;
    assert s.positions == map[name := at] && s.goals == map[name := at];
    assert Servoed(s) == map[name := at];
  }

  lemma NewArmReads(name: string, at: real)
    ensures ReadPose(OneJoint(name), SimDriver(), NewArm(name, at)).1 == Ok(map[name := at])
  {
    hide ReadPose, Healthy, Servoed, NewArm, OneJoint;
    OneJointIsValid(name);
    NewArmRests(name, at);
    HealthyRead(OneJoint(name), NewArm(name, at));
    var pose := ReadPose(OneJoint(name), SimDriver(), NewArm(name, at)).1.value;
    assert pose.Keys == {name} && pose[name] == at;
    assert pose == map[name := at];
  }

  lemma WithinLimits(name: string, at: real)
    requires 0.0 <= at <= 1.0
    ensures OneJoint(name).Names() == {name} && OneJoint(name).InLimits(map[name := at])
  {
    OneJointIsValid(name);
  }

  function StayAtZero(name: string): Request {
    Request("", MovesJoints, map[ArgumentOf(name) := Number(0.0)])
  }

  lemma StayIsAccepted(name: string)
    ensures Targets(OneJoint(name), StayAtZero(name).arguments) == Some(map[name := 0.0])
  {
    OneJointIsValid(name);
    assert StayAtZero(name).arguments.Keys == {ArgumentOf(name)} == Arguments(OneJoint(name));
    TargetsOf(OneJoint(name), StayAtZero(name).arguments, map[name := 0.0]);
  }

  lemma OneWriteNeeded(name: string)
    requires OneJoint(name).Names() == {name} && MoveStep(OneJoint(name)) == 0.1
    ensures WritesNeeded(OneJoint(name), map[name := 0.0], map[name := 0.0]) == 1
  {
    var p, pose := OneJoint(name), map[name := 0.0];
    assert p.joints[0].name == name && p.joints[1..] == [];
    assert MaxDrift([], pose, pose, 0.0) == 0.0;
    assert LargestGap(p.joints, pose, pose) == 0.0;
  }

  /** The move to where the joint is completes, and meets its row's evidence unless
      the joint is named `frame`. */
  lemma OneJointMoves(name: string)
    ensures var p := OneJoint(name);
            var result := Move(p, SimDriver(), NewArm(name, 0.0), StayAtZero(name)).1;
            && result.outcome.Completed?
            && (MeetsAll(ArrivalSpecs(p, p.joints), result.observations, Numbers(StayAtZero(name).arguments))
                <==> name != FRAME_FIELD)
  {
    assert OneJoint(name).moveDeadline == 10.0;
    hide ReadPose, Move, Healthy, WritesNeeded, Targets, MeetsAll, OneJoint, StayAtZero, NewArm, MotionBlocked;
    var p, a, request := OneJoint(name), NewArm(name, 0.0), StayAtZero(name);
    OneJointIsValid(name);
    NewArmRests(name, 0.0);
    NewArmReads(name, 0.0);
    WithinLimits(name, 0.0);
    StayIsAccepted(name);
    OneWriteNeeded(name);
    HealthyMoveCompletes(p, a, request);
    CompletedMoveMeetsItsRow(p, SimDriver(), a, request);
  }

  // ---------------------------------------------------------------------------
  // A grasp
  // ---------------------------------------------------------------------------

  function Item(name: string): SimulatedObject {
    SimulatedObject(name, 0.3, -1.0, 0.0, 0, 0, false)
  }

  /** The arm with its jaws at 0.6 and something between them at 0.3. */
  function ArmWithItem(name: string): Arm<Sim> {
    var a := NewArm(name, 0.6);
    a.(bus := a.bus.(objects := [Item(name)]))
  }

  lemma ItemIsOffered(name: string)
    ensures Offers(OneJoint(name), OneGripper(name), ArmWithItem(name).bus, Item(name))
    ensures !MotionBlocked(OneJoint(name), ArmWithItem(name))
  {
    OneJointIsValid(name);
    NewBusOffers(OneJoint(name), OneGripper(name), {name}, map[name := 0.6], true, 0.1, Item(name));
  }

  /** Objects do not move the servos. */
  lemma SameServos(s: Sim, t: Sim)
    requires s.Valid() && t.Valid() && t == s.(objects := t.objects)
    ensures Servoed(t) == Servoed(s)
  {
    hide Toward;
  }

  lemma JawsStay(name: string)
    ensures ArmWithItem(name).bus.Valid() && Servoed(ArmWithItem(name).bus) == map[name := 0.6]
  {
    hide Servoed;
    NewArmRests(name, 0.6);
    SameServos(NewArm(name, 0.6).bus, ArmWithItem(name).bus);
  }

  lemma JawsAreAbove(name: string)
    ensures OneGripper(name).Gap(Item(name).at) < OneGripper(name).Gap(0.6) && Item(name).joint == name && !Item(name).touched
  {
  }

  lemma BusReadsOpen(name: string)
    ensures SimRead(ArmWithItem(name).bus).1 == Ok(map[name := 0.6])
  {
    hide Servoed, SimRead, ArmWithItem, Offers, OneJoint, OneGripper, Item;
    ItemIsOffered(name);
    JawsStay(name);
    JawsAreAbove(name);
    OneGripperJoint(name);
    ReadWithObject(OneJoint(name), OneGripper(name), ArmWithItem(name).bus, Item(name));
  }

  lemma OneGripperJoint(name: string)
    ensures OneGripper(name).joint == name
  {
  }

  lemma ReadOfOne<S>(p: ArmProfile, d: Driver<S>, a: Arm<S>, name: string, at: real)
    requires p.Names() == {name} && d.readPositions(a.bus).1 == Ok(map[name := at])
    ensures ReadPose(p, d, a).1 == Ok(map[name := at])
  {
    var pose := map[name := at];
    assert pose == map n | n in p.Names() :: pose[n];
  }

  lemma JawsReadOpen(name: string)
    ensures ReadPose(OneJoint(name), SimDriver(), ArmWithItem(name)).1 == Ok(map[name := 0.6])
  {
    hide ReadPose, SimRead, ArmWithItem, OneJoint;
    OneJointIsValid(name);
    BusReadsOpen(name);
    ReadOfOne(OneJoint(name), SimDriver(), ArmWithItem(name), name, 0.6);
  }

  lemma SixStepsClose(name: string)
    ensures Closes(OneGripper(name), 0.6, 0.1, 6)
  {
    assert 6 as real * 0.1 == 0.6;
    LineIsRateLimited(0.6, 0.0, 0.1, 6);
  }

  const GRASP := Request("", Grasps, map[])

  lemma GraspEnds(name: string)
    ensures var (after, ran) := RunGrip(OneJoint(name), OneGripper(name), SimDriver(), ArmWithItem(name), true, 0.0);
            ran.Ok? && ran.value.outcome.Completed? && ran.value.held == Some(true)
  {
    var p, g, a, item := OneJoint(name), OneGripper(name), ArmWithItem(name), Item(name);
    assert p.moveDeadline == 10.0 && p.stallWindow == 1.0 && 6 as real * 0.1 == 0.6;
    assert p.period == 0.1 && p.gripper == Some(g);
    assert CanHold(p, g, 0.6, 0.3) && OpenEnough(g, 0.6);
    hide RunGrip, ReadPose, OneJoint, ArmWithItem, Offers, CanHold, OpenEnough, Closes, GripStep;
    OneJointIsValid(name);
    ItemIsOffered(name);
    JawsReadOpen(name);
    WithinLimits(name, 0.6);
    SixStepsClose(name);
    GraspHoldsObject(p, g, a, item, 6);
  }

  /** The grasp completes holding the object, and meets its row's evidence unless the
      joint is named `held`. */
  lemma OneJointGrasps(name: string)
    ensures var p := OneJoint(name);
            var result := Grips(p, SimDriver(), ArmWithItem(name), GRASP).1;
            && result.outcome.Completed? && result.held == Some(true)
            && (MeetsAll(GraspRow(p, OneGripper(name)).evidence, result.observations, map[]) <==> name != HELD_FIELD)
  {
    assert OneJoint(name).gripper == Some(OneGripper(name));
    hide RunGrip, OneJoint, ArmWithItem, MeetsAll, GraspRow, MotionBlocked;
    OneJointIsValid(name);
    ItemIsOffered(name);
    GraspEnds(name);
    var contact, settled := CompletedGraspMeetsItsRow(OneJoint(name), SimDriver(), ArmWithItem(name), GRASP);
  }
}
