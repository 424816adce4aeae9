/** What each call of the arm adapter does, as functions of the arm's state: the bus
    behind it, the clock, the latched faults and a trace of the requests to the bus
    (flyto_robotics/arm_adapter.py). The adapter class is proved against these. */
module ArmMotion {
  import opened Wrappers
  import opened ArmProfile
  import opened ArmBus

  const ARGUMENT_SUFFIX := "_rad"
  const FRAME_FIELD := "frame"
  const HELD_FIELD := "held"
  const RELEASE_ARGUMENT := "open_to_rad"

  datatype Outcome = Completed | Refused | Failed | TimedOut | Cancelled

  datatype Reason =
    | NotStated | ReasonCompleted | NotSettled | Stalled | Timeout | ConnectionLost | StateIncomplete | TorqueNotEnabled
    | ReasonCancelled | StopConfirmed | StopUnconfirmed | ObjectHeld | NoObject | Slipping | Released | NotOpen

  datatype Observation = JointPositions | GripperPosition | HeldObject
  datatype PhaseName = Before | After | Settled
  datatype FieldValue = InFrame | Num(value: real)

  type Phase = map<string, FieldValue>

  datatype StopReport = StopReport(confirmed: bool, faulted: bool, observations: map<Observation, map<PhaseName, Phase>>)

  datatype CallResult = CallResult(outcome: Outcome, reason: Reason,
                                   observations: map<Observation, map<PhaseName, Phase>>,
                                   held: Option<bool>, stop: Option<StopReport>)

  /** Why a read or a write did not return a value. */
  datatype Fault = BusFault | Unreadable

  datatype Origin = ByMotion | ByStop

  /** One thing the adapter did or learned. */
  datatype Entry =
    | Goals(origin: Origin, goals: Pose)
    | Torque(origin: Origin, on: bool)
    | Faulted
    | StateRead
    | StopEnded(confirmed: bool)
    | MotionEnded(callId: string)

  datatype Arm<S> = Arm(bus: S, now: real, stateUnknown: bool, stopUnconfirmed: bool, trace: seq<Entry>)

  // ---------------------------------------------------------------------------
  // Reads and writes
  // ---------------------------------------------------------------------------

  function Logged<S>(a: Arm<S>, e: Entry): Arm<S> {
    a.(trace := a.trace + [e])
  }

  function Answered<S, T>(a: Arm<S>, bus: S, answer: Result<T, BusError>): (Arm<S>, Result<T, Fault>) {
    match answer
    case Ok(v) => (a.(bus := bus), Ok(v))
    case Err(_) => (Logged(a.(bus := bus), Faulted), Err(BusFault))
  }

  /** Every declared joint's position, or none of them. */
  function ReadPose<S>(p: ArmProfile, d: Driver<S>, a: Arm<S>): (r: (Arm<S>, Result<Pose, Fault>))
    ensures r.1.Ok? ==> r.1.value.Keys == p.Names()
  {
    var answer := d.readPositions(a.bus);
    var (after, raw) := Answered(a, answer.0, answer.1);
    if raw.Err? then (after, Err(raw.error))
    else if p.Names() <= raw.value.Keys then (after, Ok(map n | n in p.Names() :: raw.value[n]))
    else (after, Err(Unreadable))
  }

  function ReadTorque<S>(p: ArmProfile, d: Driver<S>, a: Arm<S>): (r: (Arm<S>, Result<map<string, bool>, Fault>))
    ensures r.1.Ok? ==> r.1.value.Keys == p.Names()
  {
    var answer := d.readTorque(a.bus);
    var (after, raw) := Answered(a, answer.0, answer.1);
    if raw.Err? then (after, Err(raw.error))
    else if p.Names() <= raw.value.Keys then (after, Ok(map n | n in p.Names() :: raw.value[n]))
    else (after, Err(Unreadable))
  }

  function WriteGoals<S>(d: Driver<S>, a: Arm<S>, origin: Origin, goals: Pose): (Arm<S>, Result<(), Fault>) {
    var answer := d.writeGoals(a.bus, goals);
    Answered(Logged(a, Goals(origin, goals)), answer.0, answer.1)
  }

  function SetTorque<S>(d: Driver<S>, a: Arm<S>, origin: Origin, on: bool): (Arm<S>, Result<(), Fault>) {
    var answer := d.setTorque(a.bus, on);
    Answered(Logged(a, Torque(origin, on)), answer.0, answer.1)
  }

  function Slept<S>(a: Arm<S>, seconds: real): Arm<S> {
    a.(now := a.now + seconds)
  }

  predicate AllOn(torque: map<string, bool>) {
    forall n :: n in torque ==> torque[n]
  }

  /** The largest distance of any joint from a reference, and at least `least`. */
  function MaxDrift(joints: seq<JointLimit>, pose: Pose, reference: Pose, least: real): real
    requires forall j :: j in joints ==> j.name in pose && j.name in reference
  {
    if joints == [] then least
    else MaxDrift(joints[1..], pose, reference, Max(least, Abs(pose[joints[0].name] - reference[joints[0].name])))
  }

  /** `count` samples a while apart: the last pose and the largest drift. */
  function Sampled<S>(p: ArmProfile, d: Driver<S>, a: Arm<S>, reference: Pose, count: nat, interval: real, last: Pose,
                      drift: real): (r: (Arm<S>, Result<(Pose, real), Fault>))
    requires reference.Keys == p.Names() && last.Keys == p.Names()
    ensures r.1.Ok? ==> r.1.value.0.Keys == p.Names()
    decreases count
  {
    if count == 0 then (a, Ok((last, drift)))
    else
      var (after, pose) := ReadPose(p, d, Slept(a, interval));
      if pose.Err? then (after, Err(pose.error))
      else Sampled(p, d, after, reference, count - 1, interval, pose.value, MaxDrift(p.joints, pose.value, reference, drift))
  }

  // ---------------------------------------------------------------------------
  // The measured stop
  // ---------------------------------------------------------------------------

  /** The frame a phase is in, under its own key; a joint of that name replaces it. */
  function PhaseOf(pose: Pose): Phase {
    map[FRAME_FIELD := InFrame] + map n | n in pose :: Num(pose[n])
  }

  function HoldObservations(held: Pose, after: Pose): map<Observation, map<PhaseName, Phase>> {
    map[JointPositions := map[Before := PhaseOf(held), After := PhaseOf(after)]]
  }

  function Hold<S>(p: ArmProfile, d: Driver<S>, a: Arm<S>): (Arm<S>, Result<StopReport, Fault>) {
    var (a1, held) := ReadPose(p, d, a);
    if held.Err? then (a1, Err(held.error))
    else
      var (a2, wrote) := WriteGoals(d, a1, ByStop, held.value);
      if wrote.Err? then (a2, Err(wrote.error))
      else
        var (a3, set_) := SetTorque(d, a2, ByStop, true);
        if set_.Err? then (a3, Err(set_.error))
        else
          var (a4, torque) := ReadTorque(p, d, a3);
          if torque.Err? then (a4, Err(torque.error))
          else
            var (a5, sampled) := Sampled(p, d, a4, held.value, p.stopSamples, p.stopPeriod, held.value, 0.0);
            if sampled.Err? then (a5, Err(sampled.error))
            else
              (a5, Ok(StopReport(AllOn(torque.value) && sampled.value.1 <= p.stopMaxDrift, false,
                                 HoldObservations(held.value, sampled.value.0))))
  }

  function TorqueOff<S>(p: ArmProfile, d: Driver<S>, a: Arm<S>): (Arm<S>, Result<StopReport, Fault>) {
    var (a1, set_) := SetTorque(d, a, ByStop, false);
    if set_.Err? then (a1, Err(set_.error))
    else
      var (a2, torque) := ReadTorque(p, d, a1);
      if torque.Err? then (a2, Err(torque.error))
      else (a2, Ok(StopReport(forall n :: n in torque.value ==> !torque.value[n], false, map[])))
  }

  /** One stop: `stopUnconfirmed` is left saying how it ended, and a fault on the way
      leaves `stateUnknown` set too. */
  function Stop<S>(p: ArmProfile, d: Driver<S>, a: Arm<S>): (Arm<S>, StopReport) {
    var (after, report) := if p.stopMode.StopTorqueOff? then TorqueOff(p, d, a) else Hold(p, d, a);
    match report
    case Err(_) =>
      (Logged(after.(stopUnconfirmed := true, stateUnknown := true), StopEnded(false)), StopReport(false, true, map[]))
    case Ok(r) => (Logged(after.(stopUnconfirmed := !r.confirmed), StopEnded(r.confirmed)), r)
  }

  function StopResult(r: StopReport): CallResult {
    CallResult(if r.confirmed then Completed else Failed, if r.confirmed then StopConfirmed else StopUnconfirmed,
               r.observations, None, Some(r))
  }

  // ---------------------------------------------------------------------------
  // Reading the state
  // ---------------------------------------------------------------------------

  function Reported(outcome: Outcome, reason: Reason): CallResult {
    CallResult(outcome, reason, map[], None, None)
  }

  /** Only a read of every position and every torque clears `stateUnknown`, and only
      a bus fault sets it. */
  function ReadState<S>(p: ArmProfile, d: Driver<S>, a: Arm<S>): (Arm<S>, CallResult) {
    var (a1, pose) := ReadPose(p, d, a);
    var (a2, torque) := if pose.Ok? then ReadTorque(p, d, a1) else (a1, Err(pose.error));
    match torque
    case Err(BusFault) => (a2.(stateUnknown := true), Reported(Failed, ConnectionLost))
    case Err(Unreadable) => (a2, Reported(Failed, StateIncomplete))
    case Ok(_) =>
      (Logged(a2.(stateUnknown := false), StateRead),
       CallResult(Completed, ReasonCompleted, map[JointPositions := map[After := PhaseOf(pose.value)]], None, None))
  }

  // ---------------------------------------------------------------------------
  // The setpoint loop of a move
  // ---------------------------------------------------------------------------

  /** What one motion loop carries from pass to pass. */
  datatype Loop<S> = Loop(arm: Arm<S>, setpoint: Pose, reference: Pose, progressAt: map<string, real>, positions: Pose) {

    predicate Covers(names: set<string>) {
      setpoint.Keys == names && reference.Keys == names && progressAt.Keys == names && positions.Keys == names
    }
  }

  datatype Ending = CancelledByStop | OutOfTime | MadeNoProgress(joints: set<string>) | Arrived | Broken(fault: Fault)

  /** How far a setpoint moves per control period. */
  function MoveStep(p: ArmProfile): real {
    p.maxSpeed * p.period
  }

  function Advanced(setpoint: Pose, targets: Pose, step: real): Pose
    requires setpoint.Keys <= targets.Keys
  {
    map n | n in setpoint :: Toward(setpoint[n], targets[n], step)
  }

  predicate Progressed(p: ArmProfile, value: real, reference: real) {
    Abs(value - reference) >= p.stallMinProgress
  }

  /** The reference positions and times after a reading. */
  function Noted<S>(p: ArmProfile, l: Loop<S>, pose: Pose): (Pose, map<string, real>)
    requires l.Covers(p.Names()) && pose.Keys == p.Names()
  {
    (map n | n in pose :: if Progressed(p, pose[n], l.reference[n]) then pose[n] else l.reference[n],
     map n | n in pose :: if Progressed(p, pose[n], l.reference[n]) then l.arm.now else l.progressAt[n])
  }

  function StalledJoints<S>(p: ArmProfile, l: Loop<S>): set<string>
    requires l.Covers(p.Names())
  {
    set n | n in p.Names() && Abs(l.setpoint[n] - l.positions[n]) > p.tolerance
            && l.arm.now - l.progressAt[n] >= p.stallWindow
  }

  predicate HasArrived(p: ArmProfile, setpoint: Pose, positions: Pose, targets: Pose)
    requires targets.Keys <= positions.Keys
  {
    setpoint == targets && forall n :: n in targets ==> Abs(positions[n] - targets[n]) <= p.tolerance
  }

  /** How the loop goes on after its reading. */
  function Judge<S>(p: ArmProfile, targets: Pose, l: Loop<S>): (ending: Option<Ending>)
    requires l.Covers(p.Names()) && targets.Keys == p.Names()
    ensures ending.Some? ==> ending.value.MadeNoProgress? || ending.value.Arrived?
  {
    if StalledJoints(p, l) != {} then Some(MadeNoProgress(StalledJoints(p, l)))
    else if HasArrived(p, l.setpoint, l.positions, targets) then Some(Arrived)
    else None
  }

  /** One pass: advance every setpoint, write, sleep, read, and judge. A stop
      requested by the time the flag is looked at ends the loop with nothing more
      written; seen under the lock it sends the motion back to the top, where the
      flag, which only the next motion clears, is still set. */
  function Pass<S>(p: ArmProfile, d: Driver<S>, targets: Pose, deadline: real, l: Loop<S>): (r: (Loop<S>, Option<Ending>))
    requires l.Covers(p.Names()) && targets.Keys == p.Names()
    ensures r.0.Covers(p.Names())
    ensures r.1.None? ==> l.arm.now <= deadline && r.0.arm.now == l.arm.now + p.period
  {
    if d.stopRequested(l.arm.bus, AtTop) then (l, Some(CancelledByStop))
    else if l.arm.now > deadline then (l, Some(OutOfTime))
    else
      var setpoint := Advanced(l.setpoint, targets, MoveStep(p));
      if d.stopRequested(l.arm.bus, BeforeWrite) then (l.(setpoint := setpoint), Some(CancelledByStop)) else
      var (a1, wrote) := WriteGoals(d, l.arm, ByMotion, setpoint);
      if wrote.Err? then (l.(arm := a1, setpoint := setpoint), Some(Broken(wrote.error)))
      else
        var (a2, pose) := ReadPose(p, d, Slept(a1, p.period));
        if pose.Err? then (l.(arm := a2, setpoint := setpoint), Some(Broken(pose.error)))
        else
          var read_ := l.(arm := a2, setpoint := setpoint, positions := pose.value);
          var (reference, progressAt) := Noted(p, read_, pose.value);
          var noted := read_.(reference := reference, progressAt := progressAt);
          (noted, Judge(p, targets, noted))
  }

  /** How many more passes the deadline leaves. */
  function PassesLeft(now: real, deadline: real, period: real): nat
    requires 0.0 < period
  {
    if now > deadline then 0 else 1 + Passes(deadline - now, period)
  }

  function Passes(span: real, period: real): nat
    requires 0.0 < period && 0.0 <= span
  {
    (span / period).Floor
  }

  lemma QuotientOf(x: real, y: real) returns (q: real)
    requires 0.0 < y
    ensures q == x / y && q * y == x
  {
    q := x / y;
  }

  lemma SameQuotient(x: real, y: real, period: real)
    requires 0.0 < period && x * period == y * period
    ensures x == y
  {
    assert (x - y) * period == 0.0;
  }

  lemma OnePassLess(now: real, deadline: real, period: real)
    requires 0.0 < period && now <= deadline
    ensures PassesLeft(now + period, deadline, period) < PassesLeft(now, deadline, period)
  {
    if now + period <= deadline {
      var q := QuotientOf(deadline - now, period);
      var r := QuotientOf(deadline - (now + period), period);
      SameQuotient(r + 1.0, q, period);
    }
  }

  /** The loop to its end. */
  function Looped<S>(p: ArmProfile, d: Driver<S>, targets: Pose, deadline: real, l: Loop<S>): (r: (Loop<S>, Ending))
    requires 0.0 < p.period && l.Covers(p.Names()) && targets.Keys == p.Names()
    ensures r.0.Covers(p.Names())
    decreases PassesLeft(l.arm.now, deadline, p.period)
  {
    var (next, ending) := Pass(p, d, targets, deadline, l);
    if ending.Some? then (next, ending.value)
    else
      OnePassLess(l.arm.now, deadline, p.period);
      Looped(p, d, targets, deadline, next)
  }

  // ---------------------------------------------------------------------------
  // A whole move
  // ---------------------------------------------------------------------------

  function MovePhases(before: Pose, after: Pose): map<PhaseName, Phase> {
    map[Before := PhaseOf(before), After := PhaseOf(after)]
  }

  function MoveResult(outcome: Outcome, reason: Reason, before: Pose, after: Pose, stop: Option<StopReport>): CallResult {
    CallResult(outcome, reason, map[JointPositions := MovePhases(before, after)], None, stop)
  }

  function Settle<S>(p: ArmProfile, d: Driver<S>, a: Arm<S>, before: Pose, after: Pose): (Arm<S>, Result<CallResult, Fault>)
    requires after.Keys == p.Names()
  {
    var (a1, sampled) := Sampled(p, d, a, after, p.settleSamples, p.period, after, 0.0);
    if sampled.Err? then (a1, Err(sampled.error))
    else
      var (settled, drift) := sampled.value;
      var phases := MovePhases(before, after)[PhaseName.Settled := PhaseOf(settled)];
      (a1, Ok(CallResult(if drift > p.settleMaxDrift then Failed else Completed,
                         if drift > p.settleMaxDrift then NotSettled else ReasonCompleted,
                         map[JointPositions := phases], None, None)))
  }

  function EndWithStop<S>(p: ArmProfile, d: Driver<S>, a: Arm<S>, outcome: Outcome, reason: Reason, before: Pose,
                          after: Pose): (Arm<S>, Result<CallResult, Fault>)
  {
    var (a1, stop) := Stop(p, d, a);
    (a1, Ok(MoveResult(outcome, reason, before, after, Some(stop))))
  }

  function EndMove<S>(p: ArmProfile, d: Driver<S>, before: Pose, l: Loop<S>, ending: Ending)
    : (Arm<S>, Result<CallResult, Fault>)
    requires l.Covers(p.Names())
  {
    match ending
    case CancelledByStop => (l.arm, Ok(MoveResult(Cancelled, ReasonCancelled, before, l.positions, None)))
    case OutOfTime => EndWithStop(p, d, l.arm, TimedOut, Timeout, before, l.positions)
    case MadeNoProgress(_) => EndWithStop(p, d, l.arm, Failed, Stalled, before, l.positions)
    case Arrived => Settle(p, d, l.arm, before, l.positions)
    case Broken(fault) => (l.arm, Err(fault))
  }

  datatype Enabled = Driven | NotDriven

  /** With any torque off the goals become `before`, then torque goes on and is read
      back; with all of it on nothing is written. */
  function EnableTorque<S>(p: ArmProfile, d: Driver<S>, a: Arm<S>, before: Pose): (Arm<S>, Result<Enabled, Fault>) {
    var (a1, torque) := ReadTorque(p, d, a);
    if torque.Err? then (a1, Err(torque.error))
    else if AllOn(torque.value) then (a1, Ok(Driven))
    else
      var (a2, wrote) := WriteGoals(d, a1, ByMotion, before);
      if wrote.Err? then (a2, Err(wrote.error))
      else
        var (a3, set_) := SetTorque(d, a2, ByMotion, true);
        if set_.Err? then (a3, Err(set_.error))
        else
          var (a4, again) := ReadTorque(p, d, a3);
          if again.Err? then (a4, Err(again.error))
          else (a4, Ok(if AllOn(again.value) then Driven else NotDriven))
  }

  function StartLoop<S>(a: Arm<S>, before: Pose): Loop<S> {
    Loop(a, before, before, map n | n in before :: a.now, before)
  }

  /** Where a motion starts from, or the result of a call that does not get that far. */
  datatype Ready = Ready(before: Pose) | NotReady(result: CallResult)

  function Prepare<S>(p: ArmProfile, d: Driver<S>, a: Arm<S>, fromHere: Pose -> bool): (r: (Arm<S>, Result<Ready, Fault>))
    ensures r.1.Ok? && r.1.value.Ready? ==> r.1.value.before.Keys == p.Names() && p.InLimits(r.1.value.before)
  {
    var (a1, before) := ReadPose(p, d, a);
    if before.Err? then (a1, Err(before.error))
    else if !p.InLimits(before.value) || !fromHere(before.value) then (a1, Ok(NotReady(Reported(Refused, NotStated))))
    else
      var (a2, enabled) := EnableTorque(p, d, a1, before.value);
      if enabled.Err? then (a2, Err(enabled.error))
      else if enabled.value.NotDriven? then (a2, Ok(NotReady(Reported(Failed, TorqueNotEnabled))))
      else (a2, Ok(Ready(before.value)))
  }

  /** A move may start from any pose within the limits. */
  function Anywhere(): Pose -> bool {
    _ => true
  }

  function RunMove<S>(p: ArmProfile, d: Driver<S>, a: Arm<S>, targets: Pose): (Arm<S>, Result<CallResult, Fault>)
    requires 0.0 < p.period && targets.Keys == p.Names()
  {
    var (a1, ready) := Prepare(p, d, a, Anywhere());
    if ready.Err? then (a1, Err(ready.error))
    else if ready.value.NotReady? then (a1, Ok(ready.value.result))
    else
      var before := ready.value.before;
      var (last, ending) := Looped(p, d, targets, a1.now + p.moveDeadline, StartLoop(a1, before));
      EndMove(p, d, before, last, ending)
  }
}
