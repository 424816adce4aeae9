/** How a motion starts, over any bus: what has to be read, and what is written before
    torque goes on (flyto_robotics/arm_adapter.py). */
module ArmStarts {
  import opened Wrappers
  import opened ArmProfile
  import opened ArmBus
  import opened ArmMotion
  import opened ArmSafety
  import opened ArmStops

  /** Where a motion that found some torque off leaves the bus. */
  function TurnedOnBus<S>(d: Driver<S>, bus: S, before: Pose): S {
    d.setTorque(d.writeGoals(bus, before).0, true).0
  }

  /** All torque is on, or off in part and on after being turned on where the arm stands. */
  predicate ComesOn<S>(p: ArmProfile, d: Driver<S>, bus: S, before: Pose) {
    var torque := d.readTorque(bus);
    || ReadsAll(p, torque.1, true)
    || (&& IsTorqueReading(p, torque.1)
        && d.writeGoals(torque.0, before).1.Ok? && d.setTorque(d.writeGoals(torque.0, before).0, true).1.Ok?
        && ReadsAll(p, d.readTorque(TurnedOnBus(d, torque.0, before)).1, true))
  }

  /** What it asks of the bus: nothing with all torque on; else the goals where the arm
      stands, and only then torque, each as far as the one before was answered. */
  function TurnOn<S>(p: ArmProfile, d: Driver<S>, bus: S, before: Pose): seq<Entry> {
    var torque := d.readTorque(bus);
    if ReadsAll(p, torque.1, true) || !IsTorqueReading(p, torque.1) then []
    else if d.writeGoals(torque.0, before).1.Err? then [Goals(ByMotion, before)]
    else [Goals(ByMotion, before), Torque(ByMotion, true)]
  }

  /** The trace is longer by the requests and, it may be, a fault. */
  ghost predicate Asks<S>(a: Arm<S>, after: Arm<S>, requests: seq<Entry>, mayFault: bool) {
    after.trace == a.trace + requests || (mayFault && after.trace == a.trace + requests + [Faulted])
  }

  lemma GoalsAreAsked<S>(d: Driver<S>, a: Arm<S>, goals: Pose)
    ensures var (after, done) := WriteGoals(d, a, ByMotion, goals);
            var answer := d.writeGoals(a.bus, goals);
            && after.bus == answer.0 && after.now == a.now && (done.Ok? <==> answer.1.Ok?)
            && after.trace == a.trace + [Goals(ByMotion, goals)] + FaultEntries(answer.1.Err?)
  {
  }

  lemma TorqueIsAsked<S>(d: Driver<S>, a: Arm<S>)
    ensures var (after, done) := SetTorque(d, a, ByMotion, true);
            var answer := d.setTorque(a.bus, true);
            && after.bus == answer.0 && after.now == a.now && (done.Ok? <==> answer.1.Ok?)
            && after.trace == a.trace + [Torque(ByMotion, true)] + FaultEntries(answer.1.Err?)
  {
  }

  lemma AsksOrFaults<S>(a: Arm<S>, after: Arm<S>, requests: seq<Entry>, broken: bool)
    requires after.trace == a.trace + requests + FaultEntries(broken)
    ensures Asks(a, after, requests, broken) && (!broken ==> after.trace == a.trace + requests)
  {
    NoFaults(a.trace + requests);
  }

  lemma TurningOn<S>(p: ArmProfile, d: Driver<S>, a: Arm<S>, before: Pose) returns (broken: bool)
    ensures var (after, enabled) := EnableTorque(p, d, a, before);
            && (enabled == Ok(Driven) <==> ComesOn(p, d, a.bus, before))
            && after.trace == a.trace + TurnOn(p, d, a.bus, before) + FaultEntries(broken)
            && (enabled == Ok(Driven) ==> !broken) && after.now == a.now
  {
    hide ReadTorque, WriteGoals, SetTorque, ReadsAll, IsTorqueReading, FaultEntries, AllOn;
    var (a1, torque) := ReadTorque(p, d, a);
    TorqueIsRead(p, d, a);
    broken := d.readTorque(a.bus).1.Err?;
    NoFaults(a.trace);
    assert a.trace + [] == a.trace;
    if torque.Ok? && !AllOn(torque.value) {
      var (a2, wrote) := WriteGoals(d, a1, ByMotion, before);
      GoalsAreAsked(d, a1, before);
      broken := wrote.Err?;
      NoFaults(a1.trace + [Goals(ByMotion, before)]);
      if wrote.Ok? {
        var (a3, turned) := SetTorque(d, a2, ByMotion, true);
        TorqueIsAsked(d, a2);
        assert a.trace + [Goals(ByMotion, before)] + [Torque(ByMotion, true)]
               == a.trace + [Goals(ByMotion, before), Torque(ByMotion, true)];
        NoFaults(a2.trace + [Torque(ByMotion, true)]);
        TorqueIsRead(p, d, a3);
        broken := turned.Err? || d.readTorque(a3.bus).1.Err?;
      }
    }
  }

  /** Torque comes on exactly when it should; before it does the goals are where the arm
      stands, so nothing moves when it does. */
  lemma EnablesExactlyWhen<S>(p: ArmProfile, d: Driver<S>, a: Arm<S>, before: Pose)
    ensures var (after, enabled) := EnableTorque(p, d, a, before);
            && (enabled == Ok(Driven) <==> ComesOn(p, d, a.bus, before))
            && Asks(a, after, TurnOn(p, d, a.bus, before), enabled != Ok(Driven))
            && after.now == a.now
  {
    hide EnableTorque, ComesOn, TurnOn, FaultEntries;
    var broken := TurningOn(p, d, a, before);
    AsksOrFaults(a, EnableTorque(p, d, a, before).0, TurnOn(p, d, a.bus, before), broken);
  }

  /** A motion may start from here: every joint is read within its limits and the pose is
      one it may start from. */
  predicate MayStartHere(p: ArmProfile, answer: Result<Pose, BusError>, fromHere: Pose -> bool) {
    IsPoseReading(p, answer) && p.InLimits(Declared(p, answer.value)) && fromHere(Declared(p, answer.value))
  }

  /** A motion starts exactly when it may start from here and torque is or comes on, and
      then from the pose it read; one that may not asks nothing of the bus. */
  lemma StartsExactlyWhen<S>(p: ArmProfile, d: Driver<S>, a: Arm<S>, fromHere: Pose -> bool)
    ensures var (after, ready) := Prepare(p, d, a, fromHere);
            var pose := d.readPositions(a.bus);
            var may, starts := MayStartHere(p, pose.1, fromHere), ready.Ok? && ready.value.Ready?;
            && (starts <==> may && ComesOn(p, d, pose.0, Declared(p, pose.1.value)))
            && (starts ==> ready.value.before == Declared(p, pose.1.value))
            && Asks(a, after, if may then TurnOn(p, d, pose.0, Declared(p, pose.1.value)) else [], !starts)
            && after.now == a.now
  {
    hide ReadPose, EnableTorque, ComesOn, TurnOn, ArmProfile.InLimits, FaultEntries;
    PoseIsRead(p, d, a);
    NoFaults(a.trace);
    var (a1, before) := ReadPose(p, d, a);
    assert a.trace + [] == a.trace;
    if before.Ok? && MayStartHere(p, d.readPositions(a.bus).1, fromHere) {
      EnablesExactlyWhen(p, d, a1, before.value);
      assert Prepare(p, d, a, fromHere).0 == EnableTorque(p, d, a1, before.value).0;
    } else {
      AsksOrFaults(a, a1, [], d.readPositions(a.bus).1.Err?);
    }
  }
}
