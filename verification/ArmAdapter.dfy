/** The arm adapter itself: one object over one bus, whose calls update it in place
    (flyto_robotics/arm_adapter.py). Every method does what its function says. */
module ArmAdapter {
  import opened Wrappers
  import opened ArmProfile
  import opened ArmBus
  import opened ArmMotion
  import opened ArmGrip
  import opened ArmCalls

  function NamesOf(joints: seq<JointLimit>): set<string> {
    set j | j in joints :: j.name
  }

  lemma NamesOfNext(p: ArmProfile, i: nat)
    requires i < |p.joints|
    ensures NamesOf(p.joints[..i + 1]) == NamesOf(p.joints[..i]) + {p.joints[i].name}
    ensures NamesOf(p.joints[..i + 1]) <= p.Names() && p.joints[i].name in p.Names()
    ensures p.Valid() ==> p.joints[i].name !in NamesOf(p.joints[..i])
  {
    assert p.joints[..i + 1] == p.joints[..i] + [p.joints[i]];
    assert p.joints[i] in p.joints;
    forall n | n in NamesOf(p.joints[..i + 1])
      ensures n in p.Names()
    {
      var j :| j in p.joints[..i + 1] && j.name == n;
      assert j in p.joints;
    }
  }

  lemma NamesOfNone(p: ArmProfile)
    ensures NamesOf(p.joints[..0]) == {}
  {
  }

  lemma NamesOfAll(p: ArmProfile)
    ensures NamesOf(p.joints[..|p.joints|]) == p.Names()
  {
    assert p.joints[..|p.joints|] == p.joints;
  }

  /** Every declared joint's value, joint by joint, or none of them. */
  method Complete<T>(p: ArmProfile, raw: map<string, T>) returns (r: Result<map<string, T>, Fault>)
    ensures r == if p.Names() <= raw.Keys then Ok(map n | n in p.Names() :: raw[n]) else Err(Unreadable)
  {
    var values: map<string, T> := map[];
    for i := 0 to |p.joints|
      invariant NamesOf(p.joints[..i]) <= raw.Keys && values == map n | n in NamesOf(p.joints[..i]) :: raw[n]
    {
      var name := p.joints[i].name;
      NamesOfNext(p, i);
      if name !in raw {
        return Err(Unreadable);
      }
      values := values[name := raw[name]];
    }
    NamesOfAll(p);
    r := Ok(values);
  }

  /** One rate-limited step of every joint's setpoint. */
  method Advance(p: ArmProfile, setpoint: Pose, targets: Pose, step: real) returns (next: Pose)
    requires p.Valid() && setpoint.Keys == targets.Keys == p.Names()
    ensures next == Advanced(setpoint, targets, step)
  {
    hide Toward, NamesOf;
    next := setpoint;
    NamesOfNone(p);
    for i := 0 to |p.joints|
      invariant next.Keys == setpoint.Keys
      invariant forall n :: n in setpoint ==>
                  next[n] == if n in NamesOf(p.joints[..i]) then Toward(setpoint[n], targets[n], step) else setpoint[n]
    {
      var name := p.joints[i].name;
      NamesOfNext(p, i);
      next := next[name := Toward(next[name], targets[name], step)];
    }
    NamesOfAll(p);
  }

  /** The largest distance of any joint from where it should be. */
  method Drift(p: ArmProfile, pose: Pose, reference: Pose, least: real) returns (drift: real)
    requires pose.Keys == reference.Keys == p.Names()
    ensures drift == MaxDrift(p.joints, pose, reference, least)
  {
    drift := least;
    for i := 0 to |p.joints|
      invariant MaxDrift(p.joints[i..], pose, reference, drift) == MaxDrift(p.joints, pose, reference, least)
    {
      var name := p.joints[i].name;
      assert p.joints[i..][1..] == p.joints[i + 1..];
      if Abs(pose[name] - reference[name]) > drift {
        drift := Abs(pose[name] - reference[name]);
      }
    }
  }

  /** The joints noted so far that made progress have their new value. */
  predicate NotedSoFar(p: ArmProfile, pose: Pose, reference: Pose, done: set<string>, noted: Pose, latest: Pose, before: Pose)
    requires pose.Keys == reference.Keys == latest.Keys == before.Keys
  {
    && noted.Keys == pose.Keys
    && forall n :: n in pose ==> noted[n] == if n in done && Progressed(p, pose[n], reference[n]) then latest[n] else before[n]
  }

  lemma NotedNext(p: ArmProfile, pose: Pose, reference: Pose, done: set<string>, noted: Pose, latest: Pose, before: Pose,
                  name: string)
    requires pose.Keys == reference.Keys == latest.Keys == before.Keys && name in pose && name !in done
    requires NotedSoFar(p, pose, reference, done, noted, latest, before)
    ensures name in noted && noted[name] == before[name]
    ensures NotedSoFar(p, pose, reference, done + {name},
                       if Progressed(p, pose[name], reference[name]) then noted[name := latest[name]] else noted, latest, before)
  {
    hide Progressed;
  }

  /** Which joints moved enough to count as progress, and when. */
  method Note(p: ArmProfile, pose: Pose, reference: Pose, progressAt: map<string, real>, now: real)
    returns (reference': Pose, progressAt': map<string, real>)
    requires p.Valid() && pose.Keys == reference.Keys == progressAt.Keys == p.Names()
    ensures NotedSoFar(p, pose, reference, p.Names(), reference', pose, reference)
    ensures NotedSoFar(p, pose, reference, p.Names(), progressAt', map n | n in pose :: now, progressAt)
  {
    hide NotedSoFar, NamesOf, Progressed;
    reference', progressAt' := reference, progressAt;
    ghost var nows := map n | n in pose :: now;
    NamesOfNone(p);
    NothingNoted(p, pose, reference, pose, reference);
    NothingNoted(p, pose, reference, nows, progressAt);
    for i := 0 to |p.joints|
      invariant NotedSoFar(p, pose, reference, NamesOf(p.joints[..i]), reference', pose, reference)
      invariant NotedSoFar(p, pose, reference, NamesOf(p.joints[..i]), progressAt', nows, progressAt)
    {
      var name := p.joints[i].name;
      NamesOfNext(p, i);
      NotedNext(p, pose, reference, NamesOf(p.joints[..i]), reference', pose, reference, name);
      NotedNext(p, pose, reference, NamesOf(p.joints[..i]), progressAt', nows, progressAt, name);
      if Progressed(p, pose[name], reference'[name]) {
        reference' := reference'[name := pose[name]];
        progressAt' := progressAt'[name := now];
      }
    }
    NamesOfAll(p);
  }

  lemma NothingNoted(p: ArmProfile, pose: Pose, reference: Pose, latest: Pose, before: Pose)
    requires pose.Keys == reference.Keys == latest.Keys == before.Keys
    ensures NotedSoFar(p, pose, reference, {}, before, latest, before)
  {
  }

  /** Every joint noted is what the loop's function says. */
  lemma AllNoted<S>(p: ArmProfile, l: Loop<S>, pose: Pose, reference': Pose, progressAt': map<string, real>)
    requires l.Covers(p.Names()) && pose.Keys == p.Names()
    requires NotedSoFar(p, pose, l.reference, p.Names(), reference', pose, l.reference)
    requires NotedSoFar(p, pose, l.reference, p.Names(), progressAt', map n | n in pose :: l.arm.now, l.progressAt)
    ensures Noted(p, l, pose) == (reference', progressAt') && reference'.Keys == progressAt'.Keys == p.Names()
  {
    hide Progressed;
    var noted := Noted(p, l, pose);
    assert noted.0 == reference';
    assert noted.1 == progressAt';
  }

  /** Stalled joints first, then the arrival. */
  method Verdict<S>(p: ArmProfile, targets: Pose, now: real, setpoint: Pose, positions: Pose, progressAt: map<string, real>,
                    ghost l: Loop<S>) returns (ending: Option<Ending>)
    requires l.Covers(p.Names()) && targets.Keys == p.Names()
    requires l.arm.now == now && l.setpoint == setpoint && l.positions == positions && l.progressAt == progressAt
    ensures ending == Judge(p, targets, l)
  {
    hide HasArrived;
    ending := None;
    var stalled := set n | n in p.Names() && Abs(setpoint[n] - positions[n]) > p.tolerance
                           && now - progressAt[n] >= p.stallWindow;
    assert stalled == StalledJoints(p, l);
    if stalled != {} {
      ending := Some(MadeNoProgress(stalled));
    } else if HasArrived(p, setpoint, positions, targets) {
      ending := Some(Arrived);
    }
  }

  class SerialArmAdapter<S> {
    const profile: ArmProfile
    const driver: Driver<S>
    var bus: S
    var now: real
    var stateUnknown: bool
    var stopUnconfirmed: bool
    var results: map<string, CallResult>
    ghost var trace: seq<Entry>

    ghost function View(): Arm<S>
      reads this
    {
      Arm(bus, now, stateUnknown, stopUnconfirmed, trace)
    }

    ghost function State(): Adapter<S>
      reads this
    {
      Adapter(View(), results)
    }

    constructor (bus: S, driver: Driver<S>, profile: ArmProfile, now: real)
      ensures State() == Adapter(Arm(bus, now, false, false, []), map[])
      ensures this.profile == profile && this.driver == driver
    {
      this.profile, this.driver, this.bus, this.now := profile, driver, bus, now;
      stateUnknown, stopUnconfirmed, results, trace := false, false, map[], [];
    }

    // -------------------------------------------------------------------------
    // The bus
    // -------------------------------------------------------------------------

    method Sleep(seconds: real)
      modifies this`now
      ensures View() == Slept(old(View()), seconds)
    {
      now := now + seconds;
    }

    method ReadPositions() returns (r: Result<Pose, Fault>)
      modifies this`bus, this`trace
      ensures (View(), r) == ReadPose(profile, driver, old(View()))
    {
      var answer := driver.readPositions(bus);
      bus := answer.0;
      if answer.1.Err? {
        trace := trace + [Faulted];
        return Err(BusFault);
      }
      r := Complete(profile, answer.1.value);
    }

    method ReadTorqueEnabled() returns (r: Result<map<string, bool>, Fault>)
      modifies this`bus, this`trace
      ensures (View(), r) == ReadTorque(profile, driver, old(View()))
    {
      var answer := driver.readTorque(bus);
      bus := answer.0;
      if answer.1.Err? {
        trace := trace + [Faulted];
        return Err(BusFault);
      }
      r := Complete(profile, answer.1.value);
    }

    method WriteGoalPositions(origin: Origin, goals: Pose) returns (r: Result<(), Fault>)
      modifies this`bus, this`trace
      ensures (View(), r) == WriteGoals(driver, old(View()), origin, goals)
    {
      var answer := driver.writeGoals(bus, goals);
      bus := answer.0;
      trace := trace + [Goals(origin, goals)];
      if answer.1.Err? {
        trace := trace + [Faulted];
        return Err(BusFault);
      }
      r := Ok(answer.1.value);
    }

    method TurnTorque(origin: Origin, on: bool) returns (r: Result<(), Fault>)
      modifies this`bus, this`trace
      ensures (View(), r) == SetTorque(driver, old(View()), origin, on)
    {
      var answer := driver.setTorque(bus, on);
      bus := answer.0;
      trace := trace + [Torque(origin, on)];
      if answer.1.Err? {
        trace := trace + [Faulted];
        return Err(BusFault);
      }
      r := Ok(answer.1.value);
    }

    /** Sample the pose a while apart: the last pose and the largest drift. */
    method Sample(reference: Pose, count: nat, interval: real) returns (r: Result<(Pose, real), Fault>)
      requires reference.Keys == profile.Names()
      modifies this`bus, this`trace, this`now
      ensures (View(), r) == Sampled(profile, driver, old(View()), reference, count, interval, reference, 0.0)
    {
      hide ReadPose;
      ghost var whole := Sampled(profile, driver, View(), reference, count, interval, reference, 0.0);
      var last, drift := reference, 0.0;
      for i := 0 to count
        invariant last.Keys == profile.Names()
        invariant stateUnknown == old(stateUnknown) && stopUnconfirmed == old(stopUnconfirmed)
        invariant Sampled(profile, driver, View(), reference, count - i, interval, last, drift) == whole
      {
        Sleep(interval);
        var pose := ReadPositions();
        if pose.Err? {
          return Err(pose.error);
        }
        last := pose.value;
        drift := Drift(profile, last, reference, drift);
      }
      r := Ok((last, drift));
    }

    // -------------------------------------------------------------------------
    // The measured stop
    // -------------------------------------------------------------------------

    method Hold() returns (r: Result<StopReport, Fault>)
      modifies this`bus, this`trace, this`now
      ensures (View(), r) == ArmMotion.Hold(profile, driver, old(View()))
    {
      hide ReadPose, ReadTorque, WriteGoals, SetTorque, Sampled;
      var held := ReadPositions();
      if held.Err? { return Err(held.error); }
      var wrote := WriteGoalPositions(ByStop, held.value);
      if wrote.Err? { return Err(wrote.error); }
      var turned := TurnTorque(ByStop, true);
      if turned.Err? { return Err(turned.error); }
      var torque := ReadTorqueEnabled();
      if torque.Err? { return Err(torque.error); }
      var sampled := Sample(held.value, profile.stopSamples, profile.stopPeriod);
      if sampled.Err? { return Err(sampled.error); }
      r := Ok(StopReport(AllOn(torque.value) && sampled.value.1 <= profile.stopMaxDrift, false,
                         HoldObservations(held.value, sampled.value.0)));
    }

    method TorqueOff() returns (r: Result<StopReport, Fault>)
      modifies this`bus, this`trace
      ensures (View(), r) == ArmMotion.TorqueOff(profile, driver, old(View()))
    {
      hide ReadTorque, SetTorque;
      var turned := TurnTorque(ByStop, false);
      if turned.Err? { return Err(turned.error); }
      var torque := ReadTorqueEnabled();
      if torque.Err? { return Err(torque.error); }
      r := Ok(StopReport(forall n :: n in torque.value ==> !torque.value[n], false, map[]));
    }

    method Stop() returns (report: StopReport)
      modifies this`bus, this`trace, this`now, this`stateUnknown, this`stopUnconfirmed
      ensures (View(), report) == ArmMotion.Stop(profile, driver, old(View()))
    {
      hide ArmMotion.Hold, ArmMotion.TorqueOff;
      var ran;
      if profile.stopMode.StopTorqueOff? {
        ran := TorqueOff();
      } else {
        ran := Hold();
      }
      if ran.Err? {
        stopUnconfirmed, stateUnknown := true, true;
        report := StopReport(false, true, map[]);
      } else {
        stopUnconfirmed := !ran.value.confirmed;
        report := ran.value;
      }
      trace := trace + [StopEnded(report.confirmed)];
    }

    // -------------------------------------------------------------------------
    // Reading the state
    // -------------------------------------------------------------------------

    method ReadState() returns (result: CallResult)
      modifies this`bus, this`trace, this`stateUnknown
      ensures (View(), result) == ArmMotion.ReadState(profile, driver, old(View()))
    {
      hide ReadPose, ReadTorque, PhaseOf;
      var pose := ReadPositions();
      var fault: Option<Fault> := if pose.Err? then Some(pose.error) else None;
      if pose.Ok? {
        var torque := ReadTorqueEnabled();
        fault := if torque.Err? then Some(torque.error) else None;
      }
      match fault {
        case Some(BusFault) =>
          stateUnknown := true;
          return Reported(Failed, ConnectionLost);
        case Some(Unreadable) =>
          return Reported(Failed, StateIncomplete);
        case None =>
      }
      stateUnknown := false;
      trace := trace + [StateRead];
      result := CallResult(Completed, ReasonCompleted, map[JointPositions := map[After := PhaseOf(pose.value)]], None, None);
    }

    // -------------------------------------------------------------------------
    // A move
    // -------------------------------------------------------------------------

    method Energise(before: Pose) returns (r: Result<Enabled, Fault>)
      modifies this`bus, this`trace
      ensures (View(), r) == EnableTorque(profile, driver, old(View()), before)
    {
      hide ReadTorque, WriteGoals, SetTorque, AllOn;
      var torque := ReadTorqueEnabled();
      if torque.Err? { return Err(torque.error); }
      if AllOn(torque.value) { return Ok(Driven); }
      var wrote := WriteGoalPositions(ByMotion, before);
      if wrote.Err? { return Err(wrote.error); }
      var turned := TurnTorque(ByMotion, true);
      if turned.Err? { return Err(turned.error); }
      var again := ReadTorqueEnabled();
      if again.Err? { return Err(again.error); }
      r := Ok(if AllOn(again.value) then Driven else NotDriven);
    }

    method GetReady(fromHere: Pose -> bool) returns (r: Result<Ready, Fault>)
      modifies this`bus, this`trace
      ensures (View(), r) == Prepare(profile, driver, old(View()), fromHere)
    {
      hide ReadPose, EnableTorque;
      var before := ReadPositions();
      if before.Err? { return Err(before.error); }
      if !profile.InLimits(before.value) || !fromHere(before.value) {
        return Ok(NotReady(Reported(Refused, NotStated)));
      }
      var enabled := Energise(before.value);
      if enabled.Err? { return Err(enabled.error); }
      r := Ok(if enabled.value.NotDriven? then NotReady(Reported(Failed, TorqueNotEnabled)) else Ready(before.value));
    }

    /** One time around the loop of a move. */
    method MovePass(targets: Pose, deadline: real, setpoint: Pose, reference: Pose, progressAt: map<string, real>,
                    positions: Pose)
      returns (setpoint': Pose, reference': Pose, progressAt': map<string, real>, positions': Pose, ending: Option<Ending>)
      requires profile.Valid() && targets.Keys == profile.Names()
      requires Loop(View(), setpoint, reference, progressAt, positions).Covers(profile.Names())
      modifies this`bus, this`trace, this`now
      ensures (Loop(View(), setpoint', reference', progressAt', positions'), ending)
              == Pass(profile, driver, targets, deadline, old(Loop(View(), setpoint, reference, progressAt, positions)))
    {
      hide Advanced, Noted, NotedSoFar, ReadPose, WriteGoals, Judge, MoveStep;
      setpoint', reference', progressAt', positions', ending := setpoint, reference, progressAt, positions, None;
      if driver.stopRequested(bus, AtTop) {
        ending := Some(CancelledByStop);
        return;
      }
      if now > deadline {
        ending := Some(OutOfTime);
        return;
      }
      AdvancedKeys(setpoint, targets, MoveStep(profile));
      setpoint' := Advance(profile, setpoint, targets, MoveStep(profile));
      if driver.stopRequested(bus, BeforeWrite) {
        ending := Some(CancelledByStop);
        return;
      }
      var wrote := WriteGoalPositions(ByMotion, setpoint');
      if wrote.Err? {
        ending := Some(Broken(wrote.error));
        return;
      }
      Sleep(profile.period);
      var pose := ReadPositions();
      if pose.Err? {
        ending := Some(Broken(pose.error));
        return;
      }
      positions' := pose.value;
      ghost var read_ := Loop(View(), setpoint', reference, progressAt, positions');
      reference', progressAt' := Note(profile, positions', reference, progressAt, now);
      AllNoted(profile, read_, positions', reference', progressAt');
      ending := Verdict(profile, targets, now, setpoint', positions', progressAt',
                        Loop(View(), setpoint', reference', progressAt', positions'));
    }

    method Settle(before: Pose, after: Pose) returns (r: Result<CallResult, Fault>)
      requires after.Keys == profile.Names()
      modifies this`bus, this`trace, this`now
      ensures (View(), r) == ArmMotion.Settle(profile, driver, old(View()), before, after)
    {
      hide Sampled, MovePhases, PhaseOf;
      var sampled := Sample(after, profile.settleSamples, profile.period);
      if sampled.Err? { return Err(sampled.error); }
      var (settled, drift) := sampled.value;
      var phases := MovePhases(before, after)[PhaseName.Settled := PhaseOf(settled)];
      if drift > profile.settleMaxDrift {
        return Ok(CallResult(Failed, NotSettled, map[JointPositions := phases], None, None));
      }
      r := Ok(CallResult(Completed, ReasonCompleted, map[JointPositions := phases], None, None));
    }

    /** Around the loop until it ends. */
    method MoveLoop(before: Pose, targets: Pose, deadline: real)
      returns (setpoint: Pose, reference: Pose, progressAt: map<string, real>, positions: Pose, ending: Ending)
      requires profile.Valid() && before.Keys == targets.Keys == profile.Names()
      modifies this`bus, this`trace, this`now
      ensures (Loop(View(), setpoint, reference, progressAt, positions), ending)
              == Looped(profile, driver, targets, deadline, StartLoop(old(View()), before))
    {
      hide Looped, Pass;
      setpoint, reference, positions := before, before, before;
      progressAt := map n | n in before :: now;
      ghost var whole := Looped(profile, driver, targets, deadline, StartLoop(View(), before));
      while true
        invariant Loop(View(), setpoint, reference, progressAt, positions).Covers(profile.Names())
        invariant Looped(profile, driver, targets, deadline, Loop(View(), setpoint, reference, progressAt, positions)) == whole
        decreases PassesLeft(now, deadline, profile.period)
      {
        ghost var l := Loop(View(), setpoint, reference, progressAt, positions);
        LoopedOnce(profile, driver, targets, deadline, l);
        var done;
        setpoint, reference, progressAt, positions, done :=
          MovePass(targets, deadline, setpoint, reference, progressAt, positions);
        if done.Some? {
          ending := done.value;
          return;
        }
        OnePassLess(l.arm.now, deadline, profile.period);
      }
    }

    method EndWithStop(outcome: Outcome, reason: Reason, before: Pose, after: Pose) returns (r: Result<CallResult, Fault>)
      modifies this`bus, this`trace, this`now, this`stateUnknown, this`stopUnconfirmed
      ensures (View(), r) == ArmMotion.EndWithStop(profile, driver, old(View()), outcome, reason, before, after)
    {
      hide ArmMotion.Stop, MoveResult;
      var stop := Stop();
      r := Ok(MoveResult(outcome, reason, before, after, Some(stop)));
    }

    method RunMove(targets: Pose) returns (r: Result<CallResult, Fault>)
      requires profile.Valid() && targets.Keys == profile.Names()
      modifies this`bus, this`trace, this`now, this`stateUnknown, this`stopUnconfirmed
      ensures (View(), r) == ArmMotion.RunMove(profile, driver, old(View()), targets)
    {
      hide Prepare, Looped, EndMove, StartLoop, Anywhere;
      var ready := GetReady(Anywhere());
      if ready.Err? { return Err(ready.error); }
      if ready.value.NotReady? { return Ok(ready.value.result); }
      var before := ready.value.before;
      var setpoint, reference, progressAt, positions, ending := MoveLoop(before, targets, now + profile.moveDeadline);
      ghost var l := Loop(View(), setpoint, reference, progressAt, positions);
      assert l.Covers(profile.Names());
      r := FinishMove(before, positions, ending, l);
    }

    /** What follows the loop of a move, by how it ended. */
    method FinishMove(before: Pose, positions: Pose, ending: Ending, ghost l: Loop<S>) returns (r: Result<CallResult, Fault>)
      requires l.Covers(profile.Names()) && l.arm == View() && l.positions == positions
      modifies this`bus, this`trace, this`now, this`stateUnknown, this`stopUnconfirmed
      ensures (View(), r) == EndMove(profile, driver, before, l, ending)
    {
      hide ArmMotion.EndWithStop, ArmMotion.Settle, MoveResult;
      match ending
      case CancelledByStop => r := Ok(MoveResult(Cancelled, ReasonCancelled, before, positions, None));
      case OutOfTime => r := EndWithStop(TimedOut, Timeout, before, positions);
      case MadeNoProgress(_) => r := EndWithStop(Failed, Stalled, before, positions);
      case Arrived => r := Settle(before, positions);
      case Broken(fault) => r := Err(fault);
    }

    // -------------------------------------------------------------------------
    // A grasp or a release
    // -------------------------------------------------------------------------

    /** Sample the jaws: where they are and the largest drift. */
    method SampleJaws(joint: string, reference: real, count: nat) returns (r: Result<(real, real), Fault>)
      requires joint in profile.Names()
      modifies this`bus, this`trace, this`now
      ensures (View(), r) == SampledJaws(profile, joint, driver, old(View()), reference, count, reference, 0.0)
    {
      hide ReadPose;
      ghost var whole := SampledJaws(profile, joint, driver, View(), reference, count, reference, 0.0);
      var position, drift := reference, 0.0;
      for i := 0 to count
        invariant stateUnknown == old(stateUnknown) && stopUnconfirmed == old(stopUnconfirmed)
        invariant SampledJaws(profile, joint, driver, View(), reference, count - i, position, drift) == whole
      {
        Sleep(profile.period);
        var pose := ReadPositions();
        if pose.Err? {
          return Err(pose.error);
        }
        position := pose.value[joint];
        drift := Max(drift, Abs(position - reference));
      }
      r := Ok((position, drift));
    }

    /** One time around the loop of a grasp or a release. */
    method GripOnce(g: GripperProfile, grasp: bool, start: real, target: real, deadline: real, setpoint: real, reference: real,
                    progressAt: real, position: real)
      returns (setpoint': real, reference': real, progressAt': real, position': real, ending: Option<GripEnding>)
      requires g.joint in profile.Names()
      modifies this`bus, this`trace, this`now
      ensures (Grip(View(), setpoint', reference', progressAt', position'), ending)
              == GripPass(profile, g, driver, grasp, start, target, deadline,
                          old(Grip(View(), setpoint, reference, progressAt, position)))
    {
      hide ReadPose, WriteGoals, Toward, GripStep, Abs;
      setpoint', reference', progressAt', position', ending := setpoint, reference, progressAt, position, None;
      if driver.stopRequested(bus, AtTop) {
        ending := Some(GripCancelled);
        return;
      }
      if now > deadline {
        ending := Some(GripOutOfTime);
        return;
      }
      setpoint' := Toward(setpoint, target, GripStep(profile, g));
      if driver.stopRequested(bus, BeforeWrite) {
        ending := Some(GripCancelled);
        return;
      }
      var wrote := WriteGoalPositions(ByMotion, map[g.joint := setpoint']);
      if wrote.Err? {
        ending := Some(GripBroken(wrote.error));
        return;
      }
      Sleep(profile.period);
      var pose := ReadPositions();
      if pose.Err? {
        ending := Some(GripBroken(pose.error));
        return;
      }
      position' := pose.value[g.joint];
      if Abs(position' - reference) >= profile.stallMinProgress {
        reference', progressAt' := position', now;
      }
      if setpoint' == target && Abs(position' - target) <= g.tolerance {
        ending := Some(ReachedTarget);
        return;
      }
      if !(Abs(setpoint' - position') > g.tolerance && now - progressAt' >= profile.stallWindow) {
        return;
      }
      if !grasp || Abs(position' - start) < profile.stallMinProgress {
        ending := Some(GripStalled);
      } else if g.Gap(position') < g.minGap {
        ending := Some(TooClosed);
      } else {
        ending := Some(Contact);
      }
    }

    method GripLoop(g: GripperProfile, grasp: bool, start: real, target: real, deadline: real)
      returns (setpoint: real, reference: real, progressAt: real, position: real, ending: GripEnding)
      requires profile.Valid() && g.joint in profile.Names()
      modifies this`bus, this`trace, this`now
      ensures (Grip(View(), setpoint, reference, progressAt, position), ending)
              == GripLooped(profile, g, driver, grasp, start, target, deadline, old(Grip(View(), start, start, now, start)))
    {
      hide GripLooped, GripPass;
      setpoint, reference, progressAt, position := start, start, now, start;
      ghost var whole := GripLooped(profile, g, driver, grasp, start, target, deadline, Grip(View(), start, start, now, start));
      while true
        invariant GripLooped(profile, g, driver, grasp, start, target, deadline,
                             Grip(View(), setpoint, reference, progressAt, position)) == whole
        decreases PassesLeft(now, deadline, profile.period)
      {
        ghost var l := Grip(View(), setpoint, reference, progressAt, position);
        GripLoopedOnce(profile, g, driver, grasp, start, target, deadline, l);
        var done;
        setpoint, reference, progressAt, position, done :=
          GripOnce(g, grasp, start, target, deadline, setpoint, reference, progressAt, position);
        if done.Some? {
          ending := done.value;
          return;
        }
        OnePassLess(l.arm.now, deadline, profile.period);
      }
    }

    method ConfirmHold(g: GripperProfile, start: real, contact: real) returns (r: Result<CallResult, Fault>)
      requires g.joint in profile.Names()
      modifies this`bus, this`trace, this`now, this`stateUnknown, this`stopUnconfirmed
      ensures (View(), r) == ArmGrip.ConfirmHold(profile, g, driver, old(View()), start, contact)
    {
      hide SampledJaws, ArmMotion.Stop, JawPhases, JawPhase, HeldPhase;
      var sampled := SampleJaws(g.joint, contact, g.holdSamples);
      if sampled.Err? { return Err(sampled.error); }
      var (position, drift) := sampled.value;
      var held := drift <= g.holdMaxDrift && g.Gap(position) >= g.minGap;
      var jaws := JawPhases(g.joint, start, contact)[PhaseName.Settled := JawPhase(g.joint, position)];
      var observations := map[GripperPosition := jaws,
                              HeldObject := map[Before := HeldPhase(g.joint, 0.0, contact),
                                                After := HeldPhase(g.joint, if held then 1.0 else 0.0, position)]];
      if held { return Ok(CallResult(Completed, ObjectHeld, observations, Some(true), None)); }
      var stop := Stop();
      r := Ok(CallResult(Failed, Slipping, observations, Some(false), Some(stop)));
    }

    method ConfirmOpen(g: GripperProfile, start: real, arrived: real, target: real) returns (r: Result<CallResult, Fault>)
      requires g.joint in profile.Names()
      modifies this`bus, this`trace, this`now
      ensures (View(), r) == ArmGrip.ConfirmOpen(profile, g, driver, old(View()), start, arrived, target)
    {
      hide SampledJaws, JawPhases, JawPhase;
      var sampled := SampleJaws(g.joint, arrived, g.holdSamples);
      if sampled.Err? { return Err(sampled.error); }
      var (position, drift) := sampled.value;
      var stays := drift <= g.holdMaxDrift && Abs(position - target) <= g.tolerance;
      var jaws := JawPhases(g.joint, start, arrived)[PhaseName.Settled := JawPhase(g.joint, position)];
      r := Ok(CallResult(if stays then Completed else Failed, if stays then Released else NotOpen,
                         map[GripperPosition := jaws], if stays then Some(false) else None, None));
    }

    method EndGripWithStop(g: GripperProfile, outcome: Outcome, reason: Reason, start: real, position: real, grasp: bool)
      returns (r: Result<CallResult, Fault>)
      modifies this`bus, this`trace, this`now, this`stateUnknown, this`stopUnconfirmed
      ensures (View(), r) == ArmGrip.EndGripWithStop(profile, g, driver, old(View()), outcome, reason, start, position, grasp)
    {
      hide ArmMotion.Stop, GripResult;
      var stop := Stop();
      r := Ok(GripResult(outcome, reason, g.joint, start, position, if grasp then Some(false) else None, Some(stop)));
    }

    method RunGrip(g: GripperProfile, grasp: bool, target: real) returns (r: Result<CallResult, Fault>)
      requires profile.Valid() && g.joint in profile.Names()
      modifies this`bus, this`trace, this`now, this`stateUnknown, this`stopUnconfirmed
      ensures (View(), r) == ArmGrip.RunGrip(profile, g, driver, old(View()), grasp, target)
    {
      hide Prepare, GripLooped, ArmGrip.EndGripWithStop, ArmGrip.ConfirmHold, ArmGrip.ConfirmOpen, MayStart, GripResult;
      var ready := GetReady(MayStart(g, grasp));
      if ready.Err? { return Err(ready.error); }
      if ready.value.NotReady? { return Ok(ready.value.result); }
      var start := ready.value.before[g.joint];
      var setpoint, reference, progressAt, position, ending := GripLoop(g, grasp, start, target, now + profile.moveDeadline);
      match ending
      case GripCancelled =>
        r := Ok(GripResult(Cancelled, ReasonCancelled, g.joint, start, position, None, None));
      case GripOutOfTime => r := EndGripWithStop(g, TimedOut, Timeout, start, position, grasp);
      case ReachedTarget =>
        if grasp {
          r := Ok(GripResult(Failed, NoObject, g.joint, start, position, Some(false), None));
        } else {
          r := ConfirmOpen(g, start, position, target);
        }
      case GripStalled => r := EndGripWithStop(g, Failed, Stalled, start, position, grasp);
      case TooClosed => r := EndGripWithStop(g, Failed, NoObject, start, position, grasp);
      case Contact => r := ConfirmHold(g, start, position);
      case GripBroken(fault) => r := Err(fault);
    }

    // -------------------------------------------------------------------------
    // Calls
    // -------------------------------------------------------------------------

    /** A bus fault in a motion is a failure, with the state unknown. */
    method Guard(callId: string, ran: Result<CallResult, Fault>) returns (result: CallResult)
      modifies this`stateUnknown, this`trace
      ensures (View(), result) == Guarded(callId, old(View()), ran)
    {
      if ran.Err? {
        stateUnknown := true;
        trace := trace + [MotionEnded(callId)];
        result := Reported(Failed, if ran.error.BusFault? then ConnectionLost else StateIncomplete);
      } else {
        if !ran.value.outcome.Refused? {
          trace := trace + [MotionEnded(callId)];
        }
        result := ran.value;
      }
    }

    method Move(request: Request) returns (result: CallResult)
      requires profile.Valid()
      modifies this`bus, this`trace, this`now, this`stateUnknown, this`stopUnconfirmed
      ensures (View(), result) == ArmCalls.Move(profile, driver, old(View()), request)
    {
      hide ArmMotion.RunMove, Guarded, Targets;
      var targets := Targets(profile, request.arguments);
      if targets.None? || !profile.limitsAccepted || stopUnconfirmed || stateUnknown {
        return Reported(Refused, NotStated);
      }
      var ran := RunMove(targets.value);
      result := Guard(request.callId, ran);
    }

    method Grips(request: Request) returns (result: CallResult)
      requires profile.Valid()
      modifies this`bus, this`trace, this`now, this`stateUnknown, this`stopUnconfirmed
      ensures (View(), result) == ArmCalls.Grips(profile, driver, old(View()), request)
    {
      hide ArmGrip.RunGrip, Guarded, GripTarget;
      if profile.gripper.None? { return Reported(Refused, NotStated); }
      var g := profile.gripper.value;
      var target := GripTarget(g, request);
      if target.None? || !profile.limitsAccepted || stopUnconfirmed || stateUnknown {
        return Reported(Refused, NotStated);
      }
      var ran := RunGrip(g, request.capability.Grasps?, target.value);
      result := Guard(request.callId, ran);
    }

    method Invoke(request: Request) returns (result: CallResult)
      requires profile.Valid()
      modifies this
      ensures (State(), result) == ArmCalls.Invoke(profile, driver, old(State()), request)
    {
      hide ArmMotion.Stop, ArmMotion.ReadState, ArmCalls.Move, ArmCalls.Grips;
      if request.capability.Halts? {
        var report := Stop();
        return StopResult(report);
      }
      if request.callId in results {
        return results[request.callId];
      }
      match request.capability {
        case ReadsState =>
          if request.arguments == map[] {
            result := ReadState();
          } else {
            result := Reported(Refused, NotStated);
          }
        case MovesJoints => result := Move(request);
        case Grasps => result := Grips(request);
        case Releases => result := Grips(request);
        case Unknown => result := Reported(Refused, NotStated);
      }
      if !result.outcome.Refused? {
        results := results[request.callId := result];
      }
    }
  }

  lemma GripLoopedOnce<S>(p: ArmProfile, g: GripperProfile, d: Driver<S>, grasp: bool, start: real, target: real,
                          deadline: real, l: Grip<S>)
    requires 0.0 < p.period && g.joint in p.Names()
    ensures var (next, ending) := GripPass(p, g, d, grasp, start, target, deadline, l);
            GripLooped(p, g, d, grasp, start, target, deadline, l)
            == if ending.Some? then (next, ending.value) else GripLooped(p, g, d, grasp, start, target, deadline, next)
  {
    hide GripPass;
  }

  lemma AdvancedKeys(setpoint: Pose, targets: Pose, step: real)
    requires setpoint.Keys <= targets.Keys
    ensures Advanced(setpoint, targets, step).Keys == setpoint.Keys
  {
  }

  lemma LoopedOnce<S>(p: ArmProfile, d: Driver<S>, targets: Pose, deadline: real, l: Loop<S>)
    requires 0.0 < p.period && l.Covers(p.Names()) && targets.Keys == p.Names()
    ensures var (next, ending) := Pass(p, d, targets, deadline, l);
            Looped(p, d, targets, deadline, l)
            == if ending.Some? then (next, ending.value) else Looped(p, d, targets, deadline, next)
  {
    hide Pass;
  }
}
