/** Each call, over any bus, keeps what a watcher of the trace knows: the latched
    faults are set whenever the trace says so, and no motion writes against them
    (flyto_robotics/arm_adapter.py). */
module ArmLatches {
  import opened Wrappers
  import opened ArmProfile
  import opened ArmBus
  import opened ArmMotion
  import opened ArmGrip
  import opened ArmCalls
  import opened ArmTrace
  import opened ArmSafety
  import opened ArmRuns

  predicate Clear<S>(a: Arm<S>) {
    !a.stateUnknown && !a.stopUnconfirmed
  }

  predicate SameLatches<S>(a: Arm<S>, b: Arm<S>) {
    a.stateUnknown == b.stateUnknown && a.stopUnconfirmed == b.stopUnconfirmed
  }

  /** Everything watched so far was safe, and the last stop is latched as it ended. */
  ghost predicate Cut<S>(a: Arm<S>, ended: set<string>) {
    var w := Watched(a.trace);
    w.safe && w.once && w.ended == ended && w.unconfirmed == a.stopUnconfirmed
  }

  /** And a fault not read away is latched too. */
  ghost predicate Sound<S>(a: Arm<S>, ended: set<string>) {
    Cut(a, ended) && (Watched(a.trace).unknown ==> a.stateUnknown)
  }

  ghost predicate Ended<S>(a: Arm<S>, ok: bool, ended: set<string>) {
    if ok then Sound(a, ended) else Cut(a, ended)
  }

  ghost predicate Kept<S>(a: Arm<S>, b: Arm<S>, ok: bool, ended: set<string>) {
    SameLatches(a, b) && Ended(b, ok, ended)
  }

  // ---------------------------------------------------------------------------
  // The bus
  // ---------------------------------------------------------------------------

  lemma AnsweredKeeps<S, T>(a: Arm<S>, bus: S, answer: Result<T, BusError>, ended: set<string>)
    requires Sound(a, ended)
    ensures var (after, r) := Answered(a, bus, answer); Kept(a, after, r.Ok?, ended)
  {
    WatchedNext(a.trace, Faulted);
  }

  lemma ReadKeeps<S>(p: ArmProfile, d: Driver<S>, a: Arm<S>, ended: set<string>)
    requires Sound(a, ended)
    ensures Kept(a, ReadPose(p, d, a).0, ReadPose(p, d, a).1.Ok?, ended)
    ensures Kept(a, ReadTorque(p, d, a).0, ReadTorque(p, d, a).1.Ok?, ended)
  {
    hide Watched;
    AnsweredKeeps(a, d.readPositions(a.bus).0, d.readPositions(a.bus).1, ended);
    AnsweredKeeps(a, d.readTorque(a.bus).0, d.readTorque(a.bus).1, ended);
  }

  lemma LoggedKeeps<S>(a: Arm<S>, e: Entry, ended: set<string>)
    requires Sound(a, ended) && (e.Goals? || e.Torque?) && (e.origin.ByMotion? ==> Clear(a))
    ensures Kept(a, Logged(a, e), true, ended)
  {
    WatchedNext(a.trace, e);
  }

  lemma WriteKeeps<S>(d: Driver<S>, a: Arm<S>, origin: Origin, goals: Pose, ended: set<string>)
    requires Sound(a, ended) && (origin.ByMotion? ==> Clear(a))
    ensures Kept(a, WriteGoals(d, a, origin, goals).0, WriteGoals(d, a, origin, goals).1.Ok?, ended)
  {
    hide Answered;
    LoggedKeeps(a, Goals(origin, goals), ended);
    var answer := d.writeGoals(a.bus, goals);
    AnsweredKeeps(Logged(a, Goals(origin, goals)), answer.0, answer.1, ended);
  }

  lemma TorqueKeeps<S>(d: Driver<S>, a: Arm<S>, origin: Origin, on: bool, ended: set<string>)
    requires Sound(a, ended) && (origin.ByMotion? ==> Clear(a))
    ensures Kept(a, SetTorque(d, a, origin, on).0, SetTorque(d, a, origin, on).1.Ok?, ended)
  {
    hide Answered;
    LoggedKeeps(a, Torque(origin, on), ended);
    var answer := d.setTorque(a.bus, on);
    AnsweredKeeps(Logged(a, Torque(origin, on)), answer.0, answer.1, ended);
  }

  lemma SleptKeeps<S>(a: Arm<S>, seconds: real, ended: set<string>)
    requires Sound(a, ended)
    ensures Kept(a, Slept(a, seconds), true, ended)
  {
  }

  lemma {:induction false} SampledKeeps<S>(p: ArmProfile, d: Driver<S>, a: Arm<S>, reference: Pose, count: nat, interval: real,
                                           last: Pose, drift: real, ended: set<string>)
    requires reference.Keys == p.Names() && last.Keys == p.Names() && Sound(a, ended)
    ensures var (after, sampled) := Sampled(p, d, a, reference, count, interval, last, drift); Kept(a, after, sampled.Ok?, ended)
    decreases count
  {
    hide ReadPose, Sound, Cut;
    if count > 0 {
      SleptKeeps(a, interval, ended);
      ReadKeeps(p, d, Slept(a, interval), ended);
      var (after, pose) := ReadPose(p, d, Slept(a, interval));
      if pose.Ok? {
        SampledKeeps(p, d, after, reference, count - 1, interval, pose.value,
                     MaxDrift(p.joints, pose.value, reference, drift), ended);
      }
    }
  }

  lemma {:induction false} SampledJawsKeeps<S>(p: ArmProfile, joint: string, d: Driver<S>, a: Arm<S>, reference: real, count: nat,
                                               last: real, drift: real, ended: set<string>)
    requires joint in p.Names() && Sound(a, ended)
    ensures var (after, sampled) := SampledJaws(p, joint, d, a, reference, count, last, drift); Kept(a, after, sampled.Ok?, ended)
    decreases count
  {
    hide ReadPose, Sound, Cut;
    if count > 0 {
      SleptKeeps(a, p.period, ended);
      ReadKeeps(p, d, Slept(a, p.period), ended);
      var (after, pose) := ReadPose(p, d, Slept(a, p.period));
      if pose.Ok? {
        var position := pose.value[joint];
        SampledJawsKeeps(p, joint, d, after, reference, count - 1, position, Max(drift, Abs(position - reference)), ended);
      }
    }
  }

  // ---------------------------------------------------------------------------
  // A stop and a state read
  // ---------------------------------------------------------------------------

  lemma HoldKeeps<S>(p: ArmProfile, d: Driver<S>, a: Arm<S>, ended: set<string>)
    requires Sound(a, ended)
    ensures Kept(a, Hold(p, d, a).0, Hold(p, d, a).1.Ok?, ended)
  {
    hide ReadPose, ReadTorque, WriteGoals, SetTorque, Sampled, Sound, Cut, HoldObservations, AllOn;
    ReadKeeps(p, d, a, ended);
    var (a1, held) := ReadPose(p, d, a);
    if held.Ok? {
      WriteKeeps(d, a1, ByStop, held.value, ended);
      var (a2, wrote) := WriteGoals(d, a1, ByStop, held.value);
      if wrote.Ok? {
        TorqueKeeps(d, a2, ByStop, true, ended);
        var (a3, set_) := SetTorque(d, a2, ByStop, true);
        if set_.Ok? {
          ReadKeeps(p, d, a3, ended);
          var (a4, torque) := ReadTorque(p, d, a3);
          if torque.Ok? {
            SampledKeeps(p, d, a4, held.value, p.stopSamples, p.stopPeriod, held.value, 0.0, ended);
          }
        }
      }
    }
  }

  lemma TorqueOffKeeps<S>(p: ArmProfile, d: Driver<S>, a: Arm<S>, ended: set<string>)
    requires Sound(a, ended)
    ensures Kept(a, TorqueOff(p, d, a).0, TorqueOff(p, d, a).1.Ok?, ended)
  {
    hide ReadTorque, SetTorque, Sound, Cut;
    TorqueKeeps(d, a, ByStop, false, ended);
    var (a1, set_) := SetTorque(d, a, ByStop, false);
    if set_.Ok? {
      ReadKeeps(p, d, a1, ended);
    }
  }

  /** A stop latches how it ended, and a fault in it. */
  lemma StopKeeps<S>(p: ArmProfile, d: Driver<S>, a: Arm<S>, ended: set<string>)
    requires Sound(a, ended)
    ensures Sound(Stop(p, d, a).0, ended)
  {
    hide Hold, TorqueOff;
    HoldKeeps(p, d, a, ended);
    TorqueOffKeeps(p, d, a, ended);
    var (after, report) := if p.stopMode.StopTorqueOff? then TorqueOff(p, d, a) else Hold(p, d, a);
    WatchedNext(after.trace, StopEnded(report.Ok? && report.value.confirmed));
  }

  lemma ReadStateKeeps<S>(p: ArmProfile, d: Driver<S>, a: Arm<S>, ended: set<string>)
    requires Sound(a, ended)
    ensures Sound(ReadState(p, d, a).0, ended)
  {
    hide ReadPose, ReadTorque, PhaseOf, Watched;
    ReadKeeps(p, d, a, ended);
    UnreadableIsNoFault(p, d, a, ended);
    var (a1, pose) := ReadPose(p, d, a);
    if pose.Ok? {
      ReadKeeps(p, d, a1, ended);
      UnreadableIsNoFault(p, d, a1, ended);
      WatchedNext(ReadTorque(p, d, a1).0.trace, StateRead);
    }
  }

  /** A reading that answered without every joint is no bus fault. */
  lemma UnreadableIsNoFault<S>(p: ArmProfile, d: Driver<S>, a: Arm<S>, ended: set<string>)
    requires Sound(a, ended)
    ensures ReadPose(p, d, a).1 == Err(Unreadable) ==> Sound(ReadPose(p, d, a).0, ended)
    ensures ReadTorque(p, d, a).1 == Err(Unreadable) ==> Sound(ReadTorque(p, d, a).0, ended)
  {
  }

  // ---------------------------------------------------------------------------
  // A move
  // ---------------------------------------------------------------------------

  lemma EnableKeeps<S>(p: ArmProfile, d: Driver<S>, a: Arm<S>, before: Pose, ended: set<string>)
    requires Sound(a, ended) && Clear(a)
    ensures Kept(a, EnableTorque(p, d, a, before).0, EnableTorque(p, d, a, before).1.Ok?, ended)
  {
    hide ReadTorque, WriteGoals, SetTorque, Sound, Cut, AllOn;
    ReadKeeps(p, d, a, ended);
    var (a1, torque) := ReadTorque(p, d, a);
    if torque.Ok? {
      WriteKeeps(d, a1, ByMotion, before, ended);
      var (a2, wrote) := WriteGoals(d, a1, ByMotion, before);
      if wrote.Ok? {
        TorqueKeeps(d, a2, ByMotion, true, ended);
        var (a3, set_) := SetTorque(d, a2, ByMotion, true);
        if set_.Ok? {
          ReadKeeps(p, d, a3, ended);
        }
      }
    }
  }

  lemma PrepareKeeps<S>(p: ArmProfile, d: Driver<S>, a: Arm<S>, fromHere: Pose -> bool, ended: set<string>)
    requires Sound(a, ended) && Clear(a)
    ensures Kept(a, Prepare(p, d, a, fromHere).0, Prepare(p, d, a, fromHere).1.Ok?, ended)
  {
    hide ReadPose, EnableTorque, Sound, Cut;
    ReadKeeps(p, d, a, ended);
    var (a1, before) := ReadPose(p, d, a);
    if before.Ok? {
      EnableKeeps(p, d, a1, before.value, ended);
    }
  }

  lemma PassKeeps<S>(p: ArmProfile, d: Driver<S>, targets: Pose, deadline: real, l: Loop<S>, ended: set<string>)
    requires l.Covers(p.Names()) && targets.Keys == p.Names() && Sound(l.arm, ended) && Clear(l.arm)
    ensures var (next, ending) := Pass(p, d, targets, deadline, l);
            Kept(l.arm, next.arm, !(ending.Some? && ending.value.Broken?), ended)
  {
    hide Judge, Noted, Advanced, WriteGoals, ReadPose, Sound, Cut;
    var goals := Advanced(l.setpoint, targets, MoveStep(p));
    WriteKeeps(d, l.arm, ByMotion, goals, ended);
    var (a1, wrote) := WriteGoals(d, l.arm, ByMotion, goals);
    if wrote.Ok? {
      SleptKeeps(a1, p.period, ended);
      ReadKeeps(p, d, Slept(a1, p.period), ended);
    }
  }

  lemma {:induction false} LoopKeeps<S>(p: ArmProfile, d: Driver<S>, targets: Pose, deadline: real, l: Loop<S>,
                                        ended: set<string>)
    requires 0.0 < p.period && l.Covers(p.Names()) && targets.Keys == p.Names() && Sound(l.arm, ended) && Clear(l.arm)
    ensures var (last, ending) := Looped(p, d, targets, deadline, l); Kept(l.arm, last.arm, !ending.Broken?, ended)
    decreases PassesLeft(l.arm.now, deadline, p.period)
  {
    hide Pass, Sound, Cut;
    PassKeeps(p, d, targets, deadline, l, ended);
    var (next, ending) := Pass(p, d, targets, deadline, l);
    if ending.None? {
      OnePassLess(l.arm.now, deadline, p.period);
      LoopKeeps(p, d, targets, deadline, next, ended);
    }
  }

  lemma EndMoveKeeps<S>(p: ArmProfile, d: Driver<S>, before: Pose, l: Loop<S>, ending: Ending, ended: set<string>)
    requires l.Covers(p.Names()) && Ended(l.arm, !ending.Broken?, ended)
    ensures Ended(EndMove(p, d, before, l, ending).0, EndMove(p, d, before, l, ending).1.Ok?, ended)
  {
    hide Stop, Sampled, Sound, Cut;
    if !ending.Broken? {
      StopKeeps(p, d, l.arm, ended);
      SampledKeeps(p, d, l.arm, l.positions, p.settleSamples, p.period, l.positions, 0.0, ended);
    }
  }

  lemma RunMoveKeeps<S>(p: ArmProfile, d: Driver<S>, a: Arm<S>, targets: Pose, ended: set<string>)
    requires 0.0 < p.period && targets.Keys == p.Names() && Sound(a, ended) && Clear(a)
    ensures Ended(RunMove(p, d, a, targets).0, RunMove(p, d, a, targets).1.Ok?, ended)
  {
    hide Prepare, Looped, EndMove, Sound, Cut;
    PrepareKeeps(p, d, a, Anywhere(), ended);
    var (a1, ready) := Prepare(p, d, a, Anywhere());
    if ready.Ok? && ready.value.Ready? {
      var before := ready.value.before;
      LoopKeeps(p, d, targets, a1.now + p.moveDeadline, StartLoop(a1, before), ended);
      var (last, ending) := Looped(p, d, targets, a1.now + p.moveDeadline, StartLoop(a1, before));
      EndMoveKeeps(p, d, before, last, ending, ended);
    }
  }

  // ---------------------------------------------------------------------------
  // A grasp or a release
  // ---------------------------------------------------------------------------

  lemma GripPassKeeps<S>(p: ArmProfile, g: GripperProfile, d: Driver<S>, grasp: bool, start: real, target: real, deadline: real,
                         l: Grip<S>, ended: set<string>)
    requires g.joint in p.Names() && Sound(l.arm, ended) && Clear(l.arm)
    ensures var (next, ending) := GripPass(p, g, d, grasp, start, target, deadline, l);
            Kept(l.arm, next.arm, !(ending.Some? && ending.value.GripBroken?), ended)
  {
    hide JudgeGrip, Progressed, WriteGoals, ReadPose, Toward, GripStep, Sound, Cut;
    var goals := map[g.joint := Toward(l.setpoint, target, GripStep(p, g))];
    WriteKeeps(d, l.arm, ByMotion, goals, ended);
    var (a1, wrote) := WriteGoals(d, l.arm, ByMotion, goals);
    if wrote.Ok? {
      SleptKeeps(a1, p.period, ended);
      ReadKeeps(p, d, Slept(a1, p.period), ended);
    }
  }

  lemma {:induction false} GripLoopKeeps<S>(p: ArmProfile, g: GripperProfile, d: Driver<S>, grasp: bool, start: real,
                                            target: real, deadline: real, l: Grip<S>, ended: set<string>)
    requires 0.0 < p.period && g.joint in p.Names() && Sound(l.arm, ended) && Clear(l.arm)
    ensures var (last, ending) := GripLooped(p, g, d, grasp, start, target, deadline, l);
            Kept(l.arm, last.arm, !ending.GripBroken?, ended)
    decreases PassesLeft(l.arm.now, deadline, p.period)
  {
    hide GripPass, Sound, Cut;
    GripPassKeeps(p, g, d, grasp, start, target, deadline, l, ended);
    var (next, ending) := GripPass(p, g, d, grasp, start, target, deadline, l);
    if ending.None? {
      OnePassLess(l.arm.now, deadline, p.period);
      GripLoopKeeps(p, g, d, grasp, start, target, deadline, next, ended);
    }
  }

  lemma EndGripKeeps<S>(p: ArmProfile, g: GripperProfile, d: Driver<S>, grasp: bool, start: real, target: real, l: Grip<S>,
                        ending: GripEnding, ended: set<string>)
    requires g.joint in p.Names() && Ended(l.arm, !ending.GripBroken?, ended)
    ensures var (after, ran) := EndGrip(p, g, d, grasp, start, target, l, ending); Ended(after, ran.Ok?, ended)
  {
    hide Stop, SampledJaws, Sound, Cut;
    if !ending.GripBroken? {
      StopKeeps(p, d, l.arm, ended);
      SampledJawsKeeps(p, g.joint, d, l.arm, l.position, g.holdSamples, l.position, 0.0, ended);
      var (a1, sampled) := SampledJaws(p, g.joint, d, l.arm, l.position, g.holdSamples, l.position, 0.0);
      if sampled.Ok? {
        StopKeeps(p, d, a1, ended);
      }
    }
  }

  lemma RunGripKeeps<S>(p: ArmProfile, g: GripperProfile, d: Driver<S>, a: Arm<S>, grasp: bool, target: real, ended: set<string>)
    requires 0.0 < p.period && g.joint in p.Names() && Sound(a, ended) && Clear(a)
    ensures Ended(RunGrip(p, g, d, a, grasp, target).0, RunGrip(p, g, d, a, grasp, target).1.Ok?, ended)
  {
    hide Prepare, GripLooped, EndGrip, Sound, Cut, MayStart;
    PrepareKeeps(p, d, a, MayStart(g, grasp), ended);
    var (a1, ready) := Prepare(p, d, a, MayStart(g, grasp));
    if ready.Ok? && ready.value.Ready? {
      var start := ready.value.before[g.joint];
      var l := Grip(a1, start, start, a1.now, start);
      GripLoopKeeps(p, g, d, grasp, start, target, a1.now + p.moveDeadline, l, ended);
      var (last, ending) := GripLooped(p, g, d, grasp, start, target, a1.now + p.moveDeadline, l);
      EndGripKeeps(p, g, d, grasp, start, target, last, ending, ended);
    }
  }

  // ---------------------------------------------------------------------------
  // Calls and runs of calls
  // ---------------------------------------------------------------------------

  lemma GuardedKeeps<S>(callId: string, a: Arm<S>, ran: Result<CallResult, Fault>, ended: set<string>)
    requires Ended(a, ran.Ok?, ended) && callId !in ended
    ensures var (after, result) := Guarded(callId, a, ran);
            Sound(after, if result.outcome.Refused? then ended else ended + {callId})
  {
    hide Watched;
    WatchedNext(a.trace, MotionEnded(callId));
  }

  lemma MoveKeeps<S>(p: ArmProfile, d: Driver<S>, a: Arm<S>, request: Request, ended: set<string>)
    requires 0.0 < p.period && Sound(a, ended) && request.callId !in ended
    ensures var (after, result) := Move(p, d, a, request);
            Sound(after, if result.outcome.Refused? then ended else ended + {request.callId})
  {
    hide RunMove, Guarded, Sound, Cut, Targets;
    var targets := Targets(p, request.arguments);
    if targets.Some? && !MotionBlocked(p, a) {
      RunMoveKeeps(p, d, a, targets.value, ended);
      var (after, ran) := RunMove(p, d, a, targets.value);
      GuardedKeeps(request.callId, after, ran, ended);
    }
  }

  lemma GripsKeeps<S>(p: ArmProfile, d: Driver<S>, a: Arm<S>, request: Request, ended: set<string>)
    requires p.Valid() && Sound(a, ended) && request.callId !in ended
    ensures var (after, result) := Grips(p, d, a, request);
            Sound(after, if result.outcome.Refused? then ended else ended + {request.callId})
  {
    hide RunGrip, Guarded, Sound, Cut, GripTarget;
    if p.gripper.Some? {
      var g := p.gripper.value;
      var target := GripTarget(g, request);
      if target.Some? && !MotionBlocked(p, a) {
        RunGripKeeps(p, g, d, a, request.capability.Grasps?, target.value, ended);
        var (after, ran) := RunGrip(p, g, d, a, request.capability.Grasps?, target.value);
        GuardedKeeps(request.callId, after, ran, ended);
      }
    }
  }

  /** The kept results cover every motion that ended. */
  ghost predicate Consistent<S>(w: Adapter<S>) {
    exists ended :: ended <= w.results.Keys && Sound(w.arm, ended)
  }

  lemma InvokeKeeps<S>(p: ArmProfile, d: Driver<S>, w: Adapter<S>, request: Request)
    requires p.Valid() && Consistent(w)
    ensures Consistent(Invoke(p, d, w, request).0)
  {
    hide Stop, ReadState, Move, Grips, Sound;
    var ended :| ended <= w.results.Keys && Sound(w.arm, ended);
    StopKeeps(p, d, w.arm, ended);
    ReadStateKeeps(p, d, w.arm, ended);
    if request.callId !in w.results {
      MoveKeeps(p, d, w.arm, request, ended);
      GripsKeeps(p, d, w.arm, request, ended);
    }
  }

  function Calls<S>(p: ArmProfile, d: Driver<S>, w: Adapter<S>, requests: seq<Request>): Adapter<S>
    requires p.Valid()
    decreases |requests|
  {
    if requests == [] then w else Calls(p, d, Invoke(p, d, w, requests[0]).0, requests[1..])
  }

  lemma {:induction false} CallsKeep<S>(p: ArmProfile, d: Driver<S>, w: Adapter<S>, requests: seq<Request>)
    requires p.Valid() && Consistent(w)
    ensures Consistent(Calls(p, d, w, requests))
    decreases |requests|
  {
    hide Invoke, Consistent;
    if requests != [] {
      InvokeKeeps(p, d, w, requests[0]);
      CallsKeep(p, d, Invoke(p, d, w, requests[0]).0, requests[1..]);
    }
  }

  function NewAdapter<S>(bus: S, now: real): Adapter<S> {
    Adapter(Arm(bus, now, false, false, []), map[])
  }

  /** Over any bus, whatever is called: between a bus fault and the next
      complete state read no motion writes, nor between a stop that was not confirmed
      and one that was, and no call id runs two motions. */
  lemma RunsAreSafe<S>(p: ArmProfile, d: Driver<S>, bus: S, now: real, requests: seq<Request>)
    requires p.Valid()
    ensures var trace := Calls(p, d, NewAdapter(bus, now), requests).arm.trace; SafeTrace(trace) && EndsOnce(trace)
  {
    hide SafeTrace, EndsOnce;
    var w := NewAdapter(bus, now);
    assert Sound(w.arm, {});
    assert Consistent(w);
    CallsKeep(p, d, w, requests);
    WatcherIsRight(Calls(p, d, w, requests).arm.trace);
  }

  lemma {:induction false} CallsStayInLimits<S>(p: ArmProfile, d: Driver<S>, w: Adapter<S>, requests: seq<Request>)
    requires p.Valid()
    ensures Adds(w.arm, Calls(p, d, w, requests).arm, LimitCheck(p))
    decreases |requests|
  {
    hide Invoke, Adds, LimitCheck;
    if requests == [] {
      AddsNothing(w.arm, w.arm, LimitCheck(p));
    } else {
      var next := Invoke(p, d, w, requests[0]).0;
      InvokeStaysInLimits(p, d, w, requests[0]);
      CallsStayInLimits(p, d, next, requests[1..]);
      AddsThen(w.arm, next.arm, Calls(p, d, w, requests).arm, LimitCheck(p));
    }
  }

  lemma {:induction false} UnacceptedRunsNeverMove<S>(p: ArmProfile, d: Driver<S>, w: Adapter<S>, requests: seq<Request>)
    requires p.Valid() && !p.limitsAccepted
    ensures Adds(w.arm, Calls(p, d, w, requests).arm, NoMotion())
    decreases |requests|
  {
    hide Invoke, Adds, NoMotion;
    if requests == [] {
      AddsNothing(w.arm, w.arm, NoMotion());
    } else {
      var next := Invoke(p, d, w, requests[0]).0;
      UnacceptedNeverMoves(p, d, w, requests[0]);
      UnacceptedRunsNeverMove(p, d, next, requests[1..]);
      AddsThen(w.arm, next.arm, Calls(p, d, w, requests).arm, NoMotion());
    }
  }

  /** Over any bus, whatever is called: every goal a motion writes names declared
      joints only, each within its limits. */
  lemma RunsStayInLimits<S>(p: ArmProfile, d: Driver<S>, bus: S, now: real, requests: seq<Request>)
    requires p.Valid()
    ensures var trace := Calls(p, d, NewAdapter(bus, now), requests).arm.trace;
            forall i :: 0 <= i < |trace| ==> WithinLimits(p, trace[i])
  {
    hide Calls;
    CallsStayInLimits(p, d, NewAdapter(bus, now), requests);
  }

  // ---------------------------------------------------------------------------
  // Refusals
  // ---------------------------------------------------------------------------

  /** Nothing but what reading did to the bus: same clock, latches and trace. */
  ghost predicate OnlyRead<S>(a: Arm<S>, b: Arm<S>) {
    b == a.(bus := b.bus)
  }

  lemma PrepareRefusedOnlyRead<S>(p: ArmProfile, d: Driver<S>, a: Arm<S>, fromHere: Pose -> bool)
    ensures var (after, ready) := Prepare(p, d, a, fromHere);
            ready.Ok? && ready.value.NotReady? && ready.value.result.outcome.Refused? ==> OnlyRead(a, after)
  {
    hide EnableTorque;
  }

  lemma RunMoveRefusedOnlyRead<S>(p: ArmProfile, d: Driver<S>, a: Arm<S>, targets: Pose)
    requires 0.0 < p.period && targets.Keys == p.Names()
    ensures var (after, ran) := RunMove(p, d, a, targets); ran.Ok? && ran.value.outcome.Refused? ==> OnlyRead(a, after)
  {
    hide Prepare, Looped, Stop, Sampled;
    PrepareRefusedOnlyRead(p, d, a, Anywhere());
  }

  lemma RunGripRefusedOnlyRead<S>(p: ArmProfile, g: GripperProfile, d: Driver<S>, a: Arm<S>, grasp: bool, target: real)
    requires 0.0 < p.period && g.joint in p.Names()
    ensures var (after, ran) := RunGrip(p, g, d, a, grasp, target);
            ran.Ok? && ran.value.outcome.Refused? ==> OnlyRead(a, after)
  {
    hide Prepare, GripLooped, Stop, SampledJaws, MayStart;
    PrepareRefusedOnlyRead(p, d, a, MayStart(g, grasp));
  }

  /** A refused call asked nothing of the bus but to be read, latched nothing, and is
      not kept: the same call may be tried again. */
  lemma RefusedWroteNothing<S>(p: ArmProfile, d: Driver<S>, w: Adapter<S>, request: Request)
    requires p.Valid() && request.callId !in w.results && Invoke(p, d, w, request).1.outcome.Refused?
    ensures var after := Invoke(p, d, w, request).0;
            && after.arm.trace == w.arm.trace && after.results == w.results && after.arm.now == w.arm.now
            && after.arm.stateUnknown == w.arm.stateUnknown && after.arm.stopUnconfirmed == w.arm.stopUnconfirmed
  {
    hide RunMove, RunGrip, Stop, Targets, GripTarget, ReadPose, ReadTorque;
    if request.capability.MovesJoints? && Targets(p, request.arguments).Some? {
      RunMoveRefusedOnlyRead(p, d, w.arm, Targets(p, request.arguments).value);
    } else if (request.capability.Grasps? || request.capability.Releases?) && p.gripper.Some? {
      var g := p.gripper.value;
      if GripTarget(g, request).Some? {
        RunGripRefusedOnlyRead(p, g, d, w.arm, request.capability.Grasps?, GripTarget(g, request).value);
      }
    }
  }

  /** A call id that has a result gets it again and nothing more happens, however
      many calls came between. */
  lemma {:induction false} KeptResultIsFinal<S>(p: ArmProfile, d: Driver<S>, w: Adapter<S>, requests: seq<Request>,
                                                callId: string)
    requires p.Valid() && callId in w.results
    ensures var after := Calls(p, d, w, requests); callId in after.results && after.results[callId] == w.results[callId]
    decreases |requests|
  {
    hide Dispatch, Stop;
    if requests != [] {
      KeptResultIsFinal(p, d, Invoke(p, d, w, requests[0]).0, requests[1..], callId);
    }
  }
}
