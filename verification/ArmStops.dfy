/** What a stop does and what its confirmation means, over any bus and on the simulated
    one, which motions end with one, and what a state read reports
    (flyto_robotics/arm_adapter.py). */
module ArmStops {
  import opened Wrappers
  import opened ArmProfile
  import opened ArmBus
  import opened ArmMotion
  import opened ArmGrip
  import opened ArmSafety
  import opened ArmEvidence
  import opened ArmGripEvidence

  // ---------------------------------------------------------------------------
  // Torque off
  // ---------------------------------------------------------------------------

  /** An answer that says of every declared joint whether its torque is on. */
  predicate IsTorqueReading(p: ArmProfile, answer: Result<map<string, bool>, BusError>) {
    answer.Ok? && p.Names() <= answer.value.Keys
  }

  predicate ReadsAll(p: ArmProfile, answer: Result<map<string, bool>, BusError>, on: bool) {
    IsTorqueReading(p, answer) && forall n :: n in p.Names() ==> answer.value[n] == on
  }

  lemma TorqueIsRead<S>(p: ArmProfile, d: Driver<S>, a: Arm<S>)
    ensures var (after, torque) := ReadTorque(p, d, a);
            var answer := d.readTorque(a.bus);
            && after == a.(bus := answer.0, trace := a.trace + FaultEntries(answer.1.Err?))
            && (torque.Ok? <==> IsTorqueReading(p, answer.1)) && (torque.Ok? ==> answer.1.Ok?)
            && (forall on :: ReadsAll(p, answer.1, on) ==> torque.Ok?)
            && (torque.Ok? ==> (AllOn(torque.value) <==> ReadsAll(p, answer.1, true)))
            && (torque.Ok? ==> ((forall n :: n in torque.value ==> !torque.value[n]) <==> ReadsAll(p, answer.1, false)))
  {
  }

  lemma TorqueIsSet<S>(d: Driver<S>, a: Arm<S>, on: bool)
    ensures var (after, done) := SetTorque(d, a, ByStop, on);
            var answer := d.setTorque(a.bus, on);
            && after == a.(bus := answer.0, trace := a.trace + [Torque(ByStop, on)] + FaultEntries(answer.1.Err?))
            && (done.Ok? <==> answer.1.Ok?)
  {
  }

  /** In torque-off mode a stop's one command is to turn torque off, and it writes no
      goal. It is confirmed if and only if that was answered and every declared joint
      then reads off. */
  lemma TorqueOffStopsExactlyWhen<S>(p: ArmProfile, d: Driver<S>, a: Arm<S>)
    requires p.stopMode.StopTorqueOff?
    ensures var (after, report) := Stop(p, d, a);
            var off := d.setTorque(a.bus, false);
            var reading := d.readTorque(off.0);
            && (report.confirmed <==> off.1.Ok? && ReadsAll(p, reading.1, false))
            && (report.faulted <==> off.1.Err? || !IsTorqueReading(p, reading.1))
            && after.trace == a.trace + [Torque(ByStop, false)] + FaultEntries(off.1.Err? || reading.1.Err?)
                              + [StopEnded(report.confirmed)]
            && after.bus == (if off.1.Ok? then reading.0 else off.0) && after.now == a.now
            && after.stopUnconfirmed == !report.confirmed && after.stateUnknown == (a.stateUnknown || report.faulted)
  {
    hide ReadTorque, SetTorque, ReadsAll, IsTorqueReading, FaultEntries;
    TorqueIsSet(d, a, false);
    var (a1, off) := SetTorque(d, a, ByStop, false);
    TorqueIsRead(p, d, a1);
    NoFaults(a.trace + [Torque(ByStop, false)]);
  }

  lemma NoFaults(t: seq<Entry>)
    ensures t + FaultEntries(false) == t
  {
  }

  /** On the simulated bus such a stop leaves every torque off, unless the bus is not
      connected or ignores it, and is confirmed if and only if it is connected and
      every declared joint's torque is then off. */
  lemma SimulatedTorqueOff(p: ArmProfile, a: Arm<Sim>)
    requires p.stopMode.StopTorqueOff? && p.Names() <= a.bus.torque.Keys
    ensures var (after, report) := Stop(p, SimDriver(), a);
            && (a.bus.connected && !a.bus.torqueOffIgnored ==> forall n :: n in after.bus.torque ==> !after.bus.torque[n])
            && after.bus.torque.Keys == a.bus.torque.Keys
            && (report.confirmed
                <==> && a.bus.connected
                     && (!a.bus.torqueOffIgnored || forall n :: n in p.Names() ==> !a.bus.torque[n]))
            && (!a.bus.connected || a.bus.torqueOffIgnored ==> after.bus.torque == a.bus.torque)
  {
    hide Stop;
    TorqueOffStopsExactlyWhen(p, SimDriver(), a);
  }

  // ---------------------------------------------------------------------------
  // Hold
  // ---------------------------------------------------------------------------

  predicate IsPoseReading(p: ArmProfile, answer: Result<Pose, BusError>) {
    answer.Ok? && p.Names() <= answer.value.Keys
  }

  /** The declared joints of a complete reading. */
  function Declared(p: ArmProfile, pose: Pose): Pose
    requires p.Names() <= pose.Keys
  {
    map n | n in p.Names() :: pose[n]
  }

  /** The next readings are complete and keep every joint near where it was held. */
  ghost predicate Stays<S>(p: ArmProfile, d: Driver<S>, bus: S, held: Pose, count: nat)
    requires held.Keys == p.Names()
    decreases count
  {
    count == 0
    || (var answer := d.readPositions(bus);
        && IsPoseReading(p, answer.1) && Within(p.Names(), Declared(p, answer.1.value), held, p.stopMaxDrift)
        && Stays(p, d, answer.0, held, count - 1))
  }

  lemma PoseIsRead<S>(p: ArmProfile, d: Driver<S>, a: Arm<S>)
    ensures var (after, pose) := ReadPose(p, d, a);
            var answer := d.readPositions(a.bus);
            && after == a.(bus := answer.0, trace := a.trace + FaultEntries(answer.1.Err?))
            && (pose.Ok? <==> IsPoseReading(p, answer.1)) && (pose.Ok? ==> answer.1.Ok?)
            && (pose.Ok? ==> pose.value == Declared(p, answer.1.value))
  {
  }

  lemma DriftIsWithin(p: ArmProfile, pose: Pose, held: Pose, drift: real)
    requires pose.Keys == held.Keys == p.Names()
    ensures MaxDrift(p.joints, pose, held, drift) <= p.stopMaxDrift
            <==> drift <= p.stopMaxDrift && Within(p.Names(), pose, held, p.stopMaxDrift)
  {
    MaxDriftIsLeastBound(p.joints, pose, held, drift);
  }

  /** Sampling succeeds with a drift within bounds exactly when the readings stay. */
  lemma {:induction false} SampledStays<S>(p: ArmProfile, d: Driver<S>, a: Arm<S>, held: Pose, count: nat, interval: real,
                                           last: Pose, drift: real)
    requires held.Keys == last.Keys == p.Names()
    ensures var (after, sampled) := Sampled(p, d, a, held, count, interval, last, drift);
            && (sampled.Ok? && sampled.value.1 <= p.stopMaxDrift
                <==> drift <= p.stopMaxDrift && Stays(p, d, a.bus, held, count))
            && (sampled.Ok? ==> after.trace == a.trace && after.stateUnknown == a.stateUnknown)
    decreases count
  {
    hide ReadPose, MaxDrift, Within, IsPoseReading, Declared;
    if count > 0 {
      var b := Slept(a, interval);
      PoseIsRead(p, d, b);
      var (after, pose) := ReadPose(p, d, b);
      if pose.Ok? {
        NoFaults(a.trace);
        DriftIsWithin(p, pose.value, held, drift);
        SampledStays(p, d, after, held, count - 1, interval, pose.value, MaxDrift(p.joints, pose.value, held, drift));
        if MaxDrift(p.joints, pose.value, held, drift) > p.stopMaxDrift {
          DriftOnlyGrows(p, d, after, held, count - 1, interval, pose.value, MaxDrift(p.joints, pose.value, held, drift));
        }
      }
    }
  }

  lemma {:induction false} DriftOnlyGrows<S>(p: ArmProfile, d: Driver<S>, a: Arm<S>, held: Pose, count: nat, interval: real,
                                             last: Pose, drift: real)
    requires held.Keys == last.Keys == p.Names()
    ensures var sampled := Sampled(p, d, a, held, count, interval, last, drift).1; sampled.Ok? ==> drift <= sampled.value.1
    decreases count
  {
    hide ReadPose, MaxDrift;
    if count > 0 {
      var (after, pose) := ReadPose(p, d, Slept(a, interval));
      if pose.Ok? {
        MaxDriftIsLeastBound(p.joints, pose.value, held, drift);
        DriftOnlyGrows(p, d, after, held, count - 1, interval, pose.value, MaxDrift(p.joints, pose.value, held, drift));
      }
    }
  }

  /** The bus as holding its measured pose leaves it. */
  function HoldingBus<S>(d: Driver<S>, bus: S, held: Pose): S {
    d.readTorque(d.setTorque(d.writeGoals(bus, held).0, true).0).0
  }

  /** In hold mode a stop is confirmed if and only if the pose was read, told to the
      joints as their goals and torque turned on without a fault, every declared joint
      then reads on, and every sample stays near that pose. Then its commands were
      exactly those two. */
  lemma HoldStopsExactlyWhen<S>(p: ArmProfile, d: Driver<S>, a: Arm<S>)
    requires p.stopMode.StopHold? && 0.0 <= p.stopMaxDrift
    ensures var (after, report) := Stop(p, d, a);
            var first := d.readPositions(a.bus);
            && (report.confirmed
                <==> && IsPoseReading(p, first.1)
                     && (var held := Declared(p, first.1.value);
                         var wrote := d.writeGoals(first.0, held);
                         var turned := d.setTorque(wrote.0, true);
                         && wrote.1.Ok? && turned.1.Ok? && ReadsAll(p, d.readTorque(turned.0).1, true)
                         && Stays(p, d, HoldingBus(d, first.0, held), held, p.stopSamples)))
            && (report.confirmed ==>
                  after.trace == a.trace + [Goals(ByStop, Declared(p, first.1.value)), Torque(ByStop, true), StopEnded(true)])
            && after.stopUnconfirmed == !report.confirmed && after.stateUnknown == (a.stateUnknown || report.faulted)
  {
    hide ReadPose, ReadTorque, WriteGoals, SetTorque, Sampled, AllOn, HoldObservations, Stays, ReadsAll, IsTorqueReading,
      IsPoseReading, FaultEntries;
    PoseIsRead(p, d, a);
    var (a1, first) := ReadPose(p, d, a);
    if first.Ok? {
      var held := first.value;
      NoFaults(a.trace);
      GoalsAreWritten(d, a1, held);
      var a2 := WriteGoals(d, a1, ByStop, held).0;
      NoFaults(a1.trace + [Goals(ByStop, held)]);
      TorqueIsSet(d, a2, true);
      var a3 := SetTorque(d, a2, ByStop, true).0;
      NoFaults(a2.trace + [Torque(ByStop, true)]);
      TorqueIsRead(p, d, a3);
      var a4 := ReadTorque(p, d, a3).0;
      NoFaults(a3.trace);
      SampledStays(p, d, a4, held, p.stopSamples, p.stopPeriod, held, 0.0);
    }
  }

  lemma GoalsAreWritten<S>(d: Driver<S>, a: Arm<S>, goals: Pose)
    ensures var (after, wrote) := WriteGoals(d, a, ByStop, goals);
            var answer := d.writeGoals(a.bus, goals);
            && after == a.(bus := answer.0, trace := a.trace + [Goals(ByStop, goals)] + FaultEntries(answer.1.Err?))
            && (wrote.Ok? <==> answer.1.Ok?)
  {
  }

  // ---------------------------------------------------------------------------
  // Motions that end with a stop
  // ---------------------------------------------------------------------------

  /** The last thing done was a stop, which ended and was latched as reported. */
  ghost predicate EndedWithStop<S>(a: Arm<S>, report: StopReport) {
    && a.trace != [] && a.trace[|a.trace| - 1] == StopEnded(report.confirmed)
    && a.stopUnconfirmed == !report.confirmed && (report.faulted ==> a.stateUnknown)
  }

  lemma StopEndsWithStop<S>(p: ArmProfile, d: Driver<S>, a: Arm<S>)
    ensures EndedWithStop(Stop(p, d, a).0, Stop(p, d, a).1)
  {
    hide ReadPose, ReadTorque, WriteGoals, SetTorque, Sampled, AllOn, HoldObservations;
  }

  /** The reasons a motion of joints ends with a stop for. */
  predicate StopsFor(reason: Reason) {
    reason.Timeout? || reason.Stalled?
  }

  lemma EndMoveStops<S>(p: ArmProfile, d: Driver<S>, before: Pose, l: Loop<S>, ending: Ending)
    requires l.Covers(p.Names()) && EndMove(p, d, before, l, ending).1.Ok?
    ensures var (after, ran) := EndMove(p, d, before, l, ending);
            && (ran.value.stop.Some? <==> StopsFor(ran.value.reason))
            && (ran.value.outcome.TimedOut? <==> ran.value.reason.Timeout?)
            && (ran.value.reason.Stalled? ==> ran.value.outcome.Failed?)
            && (ran.value.stop.Some? ==> EndedWithStop(after, ran.value.stop.value))
  {
    hide Sampled, Stop, EndedWithStop, MovePhases, PhaseOf;
    StopEndsWithStop(p, d, l.arm);
  }

  lemma NotReadyNeverStops<S>(p: ArmProfile, d: Driver<S>, a: Arm<S>, fromHere: Pose -> bool)
    ensures var ready := Prepare(p, d, a, fromHere).1;
            ready.Ok? && ready.value.NotReady? ==>
              var r := ready.value.result;
              r.stop.None? && !r.outcome.TimedOut? && (r.reason.NotStated? || r.reason.TorqueNotEnabled?)
  {
    hide ReadPose, EnableTorque;
  }

  /** Over any bus: a move that timed out or stalled ended with a stop and reports
      it, and no other move did. */
  lemma MoveStopsExactlyWhen<S>(p: ArmProfile, d: Driver<S>, a: Arm<S>, targets: Pose)
    requires 0.0 < p.period && targets.Keys == p.Names()
    requires RunMove(p, d, a, targets).1.Ok?
    ensures var (after, ran) := RunMove(p, d, a, targets);
            && (ran.value.stop.Some? <==> StopsFor(ran.value.reason))
            && (ran.value.outcome.TimedOut? <==> ran.value.reason.Timeout?)
            && (ran.value.reason.Stalled? ==> ran.value.outcome.Failed?)
            && (ran.value.stop.Some? ==> EndedWithStop(after, ran.value.stop.value))
  {
    hide Looped, Prepare, EndMove, EndedWithStop;
    var (a1, ready) := Prepare(p, d, a, Anywhere());
    NotReadyNeverStops(p, d, a, Anywhere());
    if ready.value.Ready? {
      var before := ready.value.before;
      var (last, ending) := Looped(p, d, targets, a1.now + p.moveDeadline, StartLoop(a1, before));
      EndMoveStops(p, d, before, last, ending);
    }
  }

  /** A grip that timed out, stalled or slipped ended with a stop and reports it; one
      that reports an empty grasp did too, unless its jaws closed all the way. */
  lemma GripStopsExactlyWhen<S>(p: ArmProfile, g: GripperProfile, d: Driver<S>, a: Arm<S>, grasp: bool, target: real)
    requires 0.0 < p.period && g.joint in p.Names() && RunGrip(p, g, d, a, grasp, target).1.Ok?
    ensures var (after, ran) := RunGrip(p, g, d, a, grasp, target);
            && (ran.value.reason.Timeout? || ran.value.reason.Stalled? || ran.value.reason.Slipping? ==> ran.value.stop.Some?)
            && (ran.value.stop.Some? ==>
                  && (ran.value.reason.Timeout? || ran.value.reason.Stalled? || ran.value.reason.Slipping?
                      || ran.value.reason.NoObject?)
                  && EndedWithStop(after, ran.value.stop.value) && !ran.value.outcome.Completed?)
            && (ran.value.outcome.TimedOut? <==> ran.value.reason.Timeout?)
            && (ran.value.reason.NoObject? && ran.value.stop.None? ==> grasp && ClosedAt(g, target, ran.value))
  {
    hide GripLooped, SampledJaws, Stop, ReadPose, EnableTorque, EndedWithStop, MayStart, ClosedAt;
    var (a1, ready) := Prepare(p, d, a, MayStart(g, grasp));
    if ready.Ok? && ready.value.Ready? {
      var start := ready.value.before[g.joint];
      var l := Grip(a1, start, start, a1.now, start);
      var (last, ending) := GripLooped(p, g, d, grasp, start, target, a1.now + p.moveDeadline, l);
      StopEndsWithStop(p, d, last.arm);
      if ending.Contact? {
        StopEndsWithStop(p, d, SampledJaws(p, g.joint, d, last.arm, last.position, g.holdSamples, last.position, 0.0).0);
      }
      ContactIsShortOfClosed(p, g, d, grasp, start, target, a1.now + p.moveDeadline, l);
      if ending.ReachedTarget? {
        EmptyIsClosed(g, start, last.position, target);
      }
    }
  }

  /** The jaws reported after the call are within tolerance of the target. */
  ghost predicate ClosedAt(g: GripperProfile, target: real, r: CallResult) {
    exists start, position :: r.observations == map[GripperPosition := JawPhases(g.joint, start, position)]
                              && Abs(position - target) <= g.tolerance
  }

  lemma EmptyIsClosed(g: GripperProfile, start: real, position: real, target: real)
    requires Abs(position - target) <= g.tolerance
    ensures ClosedAt(g, target, GripResult(Failed, NoObject, g.joint, start, position, Some(false), None))
  {
  }

  // ---------------------------------------------------------------------------
  // Reading the state
  // ---------------------------------------------------------------------------

  /** A state read asks for every position and then every torque. It completes, and
      forgets that the state was unknown, if and only if both answers are complete; it
      reports the positions read, and of a failure whether the bus or its answer was at
      fault. A silent bus alone leaves the state unknown. */
  lemma StateReadExactlyWhen<S>(p: ArmProfile, d: Driver<S>, a: Arm<S>)
    ensures var (after, result) := ReadState(p, d, a);
            var pose := d.readPositions(a.bus);
            var torque := d.readTorque(pose.0);
            var complete := IsPoseReading(p, pose.1) && IsTorqueReading(p, torque.1);
            var silent := pose.1.Err? || (IsPoseReading(p, pose.1) && torque.1.Err?);
            && result.outcome == (if complete then Completed else Failed)
            && result.reason == (if complete then ReasonCompleted else if silent then ConnectionLost else StateIncomplete)
            && (complete ==> result.observations.Keys == {JointPositions}
                             && result.observations[JointPositions] == map[After := PhaseOf(Declared(p, pose.1.value))])
            && (!complete ==> result.observations == map[])
            && after.stateUnknown == (silent || (a.stateUnknown && !complete)) && after.stopUnconfirmed == a.stopUnconfirmed
            && after.now == a.now
            && after.trace == a.trace + FaultEntries(silent) + (if complete then [StateRead] else [])
  {
    hide FaultEntries;
    PoseIsRead(p, d, a);
    TorqueIsRead(p, d, ReadPose(p, d, a).0);
    NoFaults(a.trace);
    NoFaults(a.trace + FaultEntries(true));
  }
}
