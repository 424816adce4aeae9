/** Whatever the bus reports: the setpoint loops write the straight line from the
    measured start to the target, and no motion writes outside the limits. */
module ArmSafety {
  import opened Wrappers
  import opened ArmProfile
  import opened ArmBus
  import opened ArmMotion
  import opened ArmGrip
  import opened ArmCalls
  import opened ArmSetpoints
  import opened ArmTrace

  // ---------------------------------------------------------------------------
  // The loop of a move
  // ---------------------------------------------------------------------------

  /** `n` setpoint writes from the `k`-th on. */
  function LineWrites(start: Pose, target: Pose, step: real, k: nat, n: nat): seq<Entry>
    requires start.Keys <= target.Keys
  {
    seq(n, i requires 0 <= i < n => Goals(ByMotion, PoseAlong(start, target, step, k + 1 + i)))
  }

  function FaultEntries(broken: bool): seq<Entry> {
    if broken then [Faulted] else []
  }

  lemma LineWritesFrom(start: Pose, target: Pose, step: real, k: nat, n: nat)
    requires start.Keys <= target.Keys
    ensures LineWrites(start, target, step, k, n + 1)
            == [Goals(ByMotion, PoseAlong(start, target, step, k + 1))] + LineWrites(start, target, step, k + 1, n)
  {
  }

  lemma WriteTrace<S>(d: Driver<S>, a: Arm<S>, origin: Origin, goals: Pose)
    ensures var (after, wrote) := WriteGoals(d, a, origin, goals);
            && after.trace == a.trace + [Goals(origin, goals)] + FaultEntries(wrote.Err?) && after.now == a.now
            && (wrote.Err? ==> wrote.error == BusFault)
  {
  }

  lemma ReadTrace<S>(p: ArmProfile, d: Driver<S>, a: Arm<S>)
    ensures var (after, pose) := ReadPose(p, d, a);
            after.trace == a.trace + FaultEntries(pose == Err(BusFault)) && after.now == a.now
  {
  }

  lemma OneWriteThenRead(t: seq<Entry>, e: Entry, broken: bool)
    ensures t + [e] + FaultEntries(false) == t + [e]
    ensures t + [e] + FaultEntries(false) + FaultEntries(broken) == t + [e] + FaultEntries(broken)
  {
  }

  lemma PassTrace<S>(p: ArmProfile, d: Driver<S>, targets: Pose, deadline: real, l: Loop<S>)
    requires l.Covers(p.Names()) && targets.Keys == p.Names()
    ensures var (next, ending) := Pass(p, d, targets, deadline, l);
            if d.stopRequested(l.arm.bus, AtTop) then next == l && ending == Some(CancelledByStop)
            else if l.arm.now > deadline then next == l && ending == Some(OutOfTime)
            else if d.stopRequested(l.arm.bus, BeforeWrite) then
              next == l.(setpoint := Advanced(l.setpoint, targets, MoveStep(p))) && ending == Some(CancelledByStop)
            else
              && ending != Some(OutOfTime) && ending != Some(CancelledByStop)
              && next.setpoint == Advanced(l.setpoint, targets, MoveStep(p))
              && next.arm.trace == l.arm.trace + [Goals(ByMotion, next.setpoint)]
                                   + FaultEntries(ending == Some(Broken(BusFault)))
  {
    hide Judge, Noted, WriteGoals, ReadPose, Advanced, FaultEntries, MoveStep;
    if !d.stopRequested(l.arm.bus, AtTop) && l.arm.now <= deadline {
      var setpoint := Advanced(l.setpoint, targets, MoveStep(p));
      var (a1, wrote) := WriteGoals(d, l.arm, ByMotion, setpoint);
      WriteTrace(d, l.arm, ByMotion, setpoint);
      ReadTrace(p, d, Slept(a1, p.period));
      OneWriteThenRead(l.arm.trace, Goals(ByMotion, setpoint), ReadPose(p, d, Slept(a1, p.period)).1 == Err(BusFault));
    }
  }

  lemma PassArrives<S>(p: ArmProfile, d: Driver<S>, targets: Pose, deadline: real, l: Loop<S>)
    requires l.Covers(p.Names()) && targets.Keys == p.Names()
    ensures var (next, ending) := Pass(p, d, targets, deadline, l);
            ending == Some(Arrived) ==> HasArrived(p, next.setpoint, next.positions, targets)
  {
    hide Noted, ReadPose, WriteGoals;
  }

  lemma NoWrites(start: Pose, target: Pose, step: real, k: nat)
    requires start.Keys <= target.Keys
    ensures LineWrites(start, target, step, k, 0) == [] && FaultEntries(false) == []
  {
  }

  /** One write and what follows it, put together either way. */
  lemma WritesJoin(t: seq<Entry>, e: Entry, rest: seq<Entry>, faults: seq<Entry>)
    ensures t + [] + [] == t && [e] + [] == [e]
    ensures t + [e] + [] + rest + faults == t + ([e] + rest) + faults
  {
  }

  /** Whatever the bus reports, the loop writes the points of the line one after
      another and nothing else, and it arrives only with the target written and
      read back within tolerance. */
  lemma {:induction false} LoopWritesLine<S>(p: ArmProfile, d: Driver<S>, start: Pose, target: Pose, deadline: real,
                                             l: Loop<S>, k: nat) returns (n: nat)
    requires 0.0 < p.maxSpeed && 0.0 < p.period && l.Covers(p.Names()) && start.Keys == target.Keys == p.Names()
    requires l.setpoint == PoseAlong(start, target, MoveStep(p), k)
    ensures var step, (last, ending) := MoveStep(p), Looped(p, d, target, deadline, l);
            && last.arm.trace == l.arm.trace + LineWrites(start, target, step, k, n) + FaultEntries(ending == Broken(BusFault))
            && (last.setpoint == PoseAlong(start, target, step, k + n)
                || (ending.CancelledByStop? && last.setpoint == PoseAlong(start, target, step, k + n + 1)))
            && (ending.Arrived? ==> 1 <= n && HasArrived(p, last.setpoint, last.positions, target))
    decreases PassesLeft(l.arm.now, deadline, p.period)
  {
    hide Pass, PoseAlong, Advanced, HasArrived, MoveStep, LineWrites, FaultEntries;
    var step := MoveStep(p);
    StepIsPositive(p);
    PoseFollowsLine(start, target, step, k);
    var (next, ending) := Pass(p, d, target, deadline, l);
    PassTrace(p, d, target, deadline, l);
    PassArrives(p, d, target, deadline, l);
    NoWrites(start, target, step, k);
    var write := Goals(ByMotion, next.setpoint);
    WritesJoin(l.arm.trace, write, [], []);
    if l.arm.now > deadline || ending == Some(CancelledByStop) {
      n := 0;
    } else if ending.Some? {
      n := 1;
      NoWrites(start, target, step, k + 1);
      LineWritesFrom(start, target, step, k, 0);
    } else {
      OnePassLess(l.arm.now, deadline, p.period);
      var m := LoopWritesLine(p, d, start, target, deadline, next, k + 1);
      n := m + 1;
      LineWritesFrom(start, target, step, k, m);
      var ended := Looped(p, d, target, deadline, next).1;
      WritesJoin(l.arm.trace, write, LineWrites(start, target, step, k + 1, m), FaultEntries(ended == Broken(BusFault)));
    }
  }

  lemma StepIsPositive(p: ArmProfile)
    requires 0.0 < p.maxSpeed && 0.0 < p.period
    ensures 0.0 < MoveStep(p)
  {
  }

  // ---------------------------------------------------------------------------
  // Motion writes stay within the limits
  // ---------------------------------------------------------------------------

  /** A motion's goals name declared joints only, each within its limits. */
  predicate WithinLimits(p: ArmProfile, e: Entry) {
    e.Goals? && e.origin.ByMotion? ==> e.goals.Keys <= p.Names() && p.InLimits(e.goals)
  }

  ghost function LimitCheck(p: ArmProfile): Entry -> bool {
    e => WithinLimits(p, e)
  }

  lemma LimitsAllow(p: ArmProfile)
    ensures AllowsStops(LimitCheck(p)) && AllowsPreparing(p, LimitCheck(p))
  {
  }

  lemma LineWritesInLimits(p: ArmProfile, start: Pose, target: Pose, step: real, n: nat)
    requires 0.0 < step && start.Keys == target.Keys == p.Names() && p.InLimits(start) && p.InLimits(target)
    ensures var writes := LineWrites(start, target, step, 0, n);
            forall i :: 0 <= i < |writes| ==> LimitCheck(p)(writes[i])
  {
    hide PoseAlong;
    var writes := LineWrites(start, target, step, 0, n);
    forall i {:trigger writes[i]} | 0 <= i < n
      ensures LimitCheck(p)(writes[i])
    {
      LineInLimits(p, start, target, step, 1 + i);
    }
  }

  lemma LoopInLimits<S>(p: ArmProfile, d: Driver<S>, start: Pose, target: Pose, deadline: real, a: Arm<S>)
    requires p.Valid() && start.Keys == target.Keys == p.Names() && p.InLimits(start) && p.InLimits(target)
    ensures Adds(a, Looped(p, d, target, deadline, StartLoop(a, start)).0.arm, LimitCheck(p))
  {
    hide Looped, PoseAlong, LineWrites, Adds;
    var step := MoveStep(p);
    StepIsPositive(p);
    PoseFollowsLine(start, target, step, 0);
    var n := LoopWritesLine(p, d, start, target, deadline, StartLoop(a, start), 0);
    LineWritesInLimits(p, start, target, step, n);
    var (last, ending) := Looped(p, d, target, deadline, StartLoop(a, start));
    AddsEntries(a, last.arm, LineWrites(start, target, step, 0, n), FaultEntries(ending == Broken(BusFault)), LimitCheck(p));
  }

  lemma EndMoveAdds<S>(p: ArmProfile, d: Driver<S>, before: Pose, l: Loop<S>, ending: Ending, ok: Entry -> bool)
    requires l.Covers(p.Names()) && AllowsStops(ok)
    ensures Adds(l.arm, EndMove(p, d, before, l, ending).0, ok)
  {
    hide Stop, Sampled, Adds;
    match ending
    case CancelledByStop => AddsNothing(l.arm, l.arm, ok);
    case OutOfTime => StopAdds(p, d, l.arm, ok);
    case MadeNoProgress(_) => StopAdds(p, d, l.arm, ok);
    case Arrived => SampledAdds(p, d, l.arm, l.positions, p.settleSamples, p.period, l.positions, 0.0, ok);
    case Broken(_) => AddsNothing(l.arm, l.arm, ok);
  }

  /** Whatever the bus reports, a move's every write is within the declared limits. */
  lemma MoveStaysInLimits<S>(p: ArmProfile, d: Driver<S>, a: Arm<S>, targets: Pose)
    requires p.Valid() && targets.Keys == p.Names() && p.InLimits(targets)
    ensures Adds(a, RunMove(p, d, a, targets).0, LimitCheck(p))
  {
    hide Prepare, Looped, EndMove, Adds, AllowsStops, AllowsPreparing;
    var ok := LimitCheck(p);
    LimitsAllow(p);
    var (a1, ready) := Prepare(p, d, a, Anywhere());
    PrepareAdds(p, d, a, Anywhere(), ok);
    if ready.Ok? && ready.value.Ready? {
      var before := ready.value.before;
      var (last, ending) := Looped(p, d, targets, a1.now + p.moveDeadline, StartLoop(a1, before));
      LoopInLimits(p, d, before, targets, a1.now + p.moveDeadline, a1);
      EndMoveAdds(p, d, before, last, ending, ok);
      AddsThen(a, a1, last.arm, ok);
      AddsThen(a, last.arm, EndMove(p, d, before, last, ending).0, ok);
    }
  }

  // ---------------------------------------------------------------------------
  // The loop of a grasp or a release
  // ---------------------------------------------------------------------------

  function JawWrites(joint: string, start: real, target: real, step: real, k: nat, n: nat): seq<Entry> {
    seq(n, i requires 0 <= i < n => Goals(ByMotion, map[joint := Along(start, target, step, k + 1 + i)]))
  }

  lemma JawWritesFrom(joint: string, start: real, target: real, step: real, k: nat, n: nat)
    ensures JawWrites(joint, start, target, step, k, n + 1)
            == [Goals(ByMotion, map[joint := Along(start, target, step, k + 1)])]
               + JawWrites(joint, start, target, step, k + 1, n)
  {
  }

  lemma GripPassTrace<S>(p: ArmProfile, g: GripperProfile, d: Driver<S>, grasp: bool, start: real, target: real,
                         deadline: real, l: Grip<S>)
    requires g.joint in p.Names()
    ensures var (next, ending) := GripPass(p, g, d, grasp, start, target, deadline, l);
            if d.stopRequested(l.arm.bus, AtTop) then next == l && ending == Some(GripCancelled)
            else if l.arm.now > deadline then next == l && ending == Some(GripOutOfTime)
            else if d.stopRequested(l.arm.bus, BeforeWrite) then
              next == l.(setpoint := Toward(l.setpoint, target, GripStep(p, g))) && ending == Some(GripCancelled)
            else
              && ending != Some(GripOutOfTime) && ending != Some(GripCancelled)
              && next.setpoint == Toward(l.setpoint, target, GripStep(p, g))
              && next.arm.trace == l.arm.trace + [Goals(ByMotion, map[g.joint := next.setpoint])]
                                   + FaultEntries(ending == Some(GripBroken(BusFault)))
  {
    hide JudgeGrip, Progressed, ReadPose, WriteGoals, Toward, FaultEntries, GripStep;
    if !d.stopRequested(l.arm.bus, AtTop) && l.arm.now <= deadline {
      var goals := map[g.joint := Toward(l.setpoint, target, GripStep(p, g))];
      var (a1, wrote) := WriteGoals(d, l.arm, ByMotion, goals);
      WriteTrace(d, l.arm, ByMotion, goals);
      ReadTrace(p, d, Slept(a1, p.period));
      OneWriteThenRead(l.arm.trace, Goals(ByMotion, goals), ReadPose(p, d, Slept(a1, p.period)).1 == Err(BusFault));
    }
  }

  /** Whatever the bus reports, the jaws' setpoints are the points of the line. */
  lemma {:induction false} GripLoopWritesLine<S>(p: ArmProfile, g: GripperProfile, d: Driver<S>, grasp: bool, start: real,
                                                 target: real, deadline: real, l: Grip<S>, k: nat) returns (n: nat)
    requires 0.0 < g.maxSpeed && 0.0 < p.period && g.joint in p.Names()
    requires l.setpoint == Along(start, target, GripStep(p, g), k)
    ensures var step, (last, ending) := GripStep(p, g), GripLooped(p, g, d, grasp, start, target, deadline, l);
            && last.arm.trace == l.arm.trace + JawWrites(g.joint, start, target, step, k, n)
                                 + FaultEntries(ending == GripBroken(BusFault))
            && (last.setpoint == Along(start, target, step, k + n)
                || (ending.GripCancelled? && last.setpoint == Along(start, target, step, k + n + 1)))
    decreases PassesLeft(l.arm.now, deadline, p.period)
  {
    hide GripPass, Along, Toward, GripStep;
    var step := GripStep(p, g);
    GripStepIsPositive(p, g);
    StepFollowsLine(start, target, step, k);
    var (next, ending) := GripPass(p, g, d, grasp, start, target, deadline, l);
    GripPassTrace(p, g, d, grasp, start, target, deadline, l);
    if l.arm.now > deadline || ending == Some(GripCancelled) {
      n := 0;
    } else if ending.Some? {
      n := 1;
      JawWritesFrom(g.joint, start, target, step, k, 0);
    } else {
      OnePassLess(l.arm.now, deadline, p.period);
      var m := GripLoopWritesLine(p, g, d, grasp, start, target, deadline, next, k + 1);
      n := m + 1;
      JawWritesFrom(g.joint, start, target, step, k, m);
    }
  }

  lemma GripLoopInLimits<S>(p: ArmProfile, g: GripperProfile, d: Driver<S>, grasp: bool, start: real, target: real,
                            deadline: real, a: Arm<S>)
    requires p.Valid() && p.gripper == Some(g)
    requires var limit := p.Limit(g.joint);
             limit.minRad <= start <= limit.maxRad && limit.minRad <= target <= limit.maxRad
    ensures Adds(a, GripLooped(p, g, d, grasp, start, target, deadline, Grip(a, start, start, a.now, start)).0.arm,
                 LimitCheck(p))
  {
    hide GripLooped, Along;
    var step := GripStep(p, g);
    GripStepIsPositive(p, g);
    StepFollowsLine(start, target, step, 0);
    var n := GripLoopWritesLine(p, g, d, grasp, start, target, deadline, Grip(a, start, start, a.now, start), 0);
    var writes := JawWrites(g.joint, start, target, step, 0, n);
    forall i {:trigger writes[i]} | 0 <= i < n
      ensures WithinLimits(p, writes[i])
    {
      LineIsRateLimited(start, target, step, 1 + i);
    }
    var (last, ending) := GripLooped(p, g, d, grasp, start, target, deadline, Grip(a, start, start, a.now, start));
    AddsEntries(a, last.arm, writes, FaultEntries(ending == GripBroken(BusFault)), LimitCheck(p));
  }

  lemma GripStepIsPositive(p: ArmProfile, g: GripperProfile)
    requires 0.0 < g.maxSpeed && 0.0 < p.period
    ensures 0.0 < GripStep(p, g)
  {
  }

  lemma {:induction false} SampledJawsAdds<S>(p: ArmProfile, joint: string, d: Driver<S>, a: Arm<S>, reference: real,
                                              count: nat, last: real, drift: real, ok: Entry -> bool)
    requires joint in p.Names() && ok(Faulted)
    ensures Adds(a, SampledJaws(p, joint, d, a, reference, count, last, drift).0, ok)
    decreases count
  {
    if count > 0 {
      var (after, pose) := ReadPose(p, d, Slept(a, p.period));
      ReadAdds(p, d, Slept(a, p.period), ok);
      if pose.Ok? {
        var position := pose.value[joint];
        var more := Max(drift, Abs(position - reference));
        SampledJawsAdds(p, joint, d, after, reference, count - 1, position, more, ok);
        AddsThen(a, after, SampledJaws(p, joint, d, after, reference, count - 1, position, more).0, ok);
      }
    }
  }

  lemma EndGripAdds<S>(p: ArmProfile, g: GripperProfile, d: Driver<S>, grasp: bool, start: real, target: real, l: Grip<S>,
                       ending: GripEnding, ok: Entry -> bool)
    requires g.joint in p.Names() && AllowsStops(ok)
    ensures Adds(l.arm, EndGrip(p, g, d, grasp, start, target, l, ending).0, ok)
  {
    hide Stop, SampledJaws, Adds;
    AddsNothing(l.arm, l.arm, ok);
    StopAdds(p, d, l.arm, ok);
    SampledJawsAdds(p, g.joint, d, l.arm, l.position, g.holdSamples, l.position, 0.0, ok);
    if ending.Contact? {
      var a1 := SampledJaws(p, g.joint, d, l.arm, l.position, g.holdSamples, l.position, 0.0).0;
      StopAdds(p, d, a1, ok);
      AddsThen(l.arm, a1, Stop(p, d, a1).0, ok);
    }
  }

  lemma GripTargetInLimits(p: ArmProfile, g: GripperProfile, request: Request)
    requires p.Valid() && p.gripper == Some(g) && GripTarget(g, request).Some?
    ensures var limit := p.Limit(g.joint); limit.minRad <= GripTarget(g, request).value <= limit.maxRad
  {
    if !request.capability.Grasps? {
      ReleaseRangeIsOpen(g, p.Limit(g.joint), GripTarget(g, request).value);
    }
  }

  /** So is every write of a grasp or a release. */
  lemma GripStaysInLimits<S>(p: ArmProfile, g: GripperProfile, d: Driver<S>, a: Arm<S>, grasp: bool, target: real)
    requires p.Valid() && p.gripper == Some(g)
    requires var limit := p.Limit(g.joint); limit.minRad <= target <= limit.maxRad
    ensures Adds(a, RunGrip(p, g, d, a, grasp, target).0, LimitCheck(p))
  {
    hide Prepare, GripLooped, EndGrip, Adds, AllowsStops, AllowsPreparing, MayStart;
    var ok := LimitCheck(p);
    LimitsAllow(p);
    var (a1, ready) := Prepare(p, d, a, MayStart(g, grasp));
    PrepareAdds(p, d, a, MayStart(g, grasp), ok);
    if ready.Ok? && ready.value.Ready? {
      var start := ready.value.before[g.joint];
      var l := Grip(a1, start, start, a1.now, start);
      var (last, ending) := GripLooped(p, g, d, grasp, start, target, a1.now + p.moveDeadline, l);
      GripLoopInLimits(p, g, d, grasp, start, target, a1.now + p.moveDeadline, a1);
      EndGripAdds(p, g, d, grasp, start, target, last, ending, ok);
      AddsThen(a, a1, last.arm, ok);
      AddsThen(a, last.arm, EndGrip(p, g, d, grasp, start, target, last, ending).0, ok);
    }
  }

  // ---------------------------------------------------------------------------
  // Whole calls
  // ---------------------------------------------------------------------------

  lemma GuardedAdds<S>(p: ArmProfile, callId: string, a: Arm<S>, ran: Result<CallResult, Fault>)
    ensures Adds(a, Guarded(callId, a, ran).0, LimitCheck(p))
  {
  }

  lemma MoveCallStaysInLimits<S>(p: ArmProfile, d: Driver<S>, a: Arm<S>, request: Request)
    requires p.Valid()
    ensures Adds(a, Move(p, d, a, request).0, LimitCheck(p))
  {
    hide RunMove, Adds, Targets, Guarded, LimitCheck;
    var targets := Targets(p, request.arguments);
    AddsNothing(a, a, LimitCheck(p));
    if targets.Some? && !MotionBlocked(p, a) {
      var (after, ran) := RunMove(p, d, a, targets.value);
      MoveStaysInLimits(p, d, a, targets.value);
      GuardedAdds(p, request.callId, after, ran);
      AddsThen(a, after, Guarded(request.callId, after, ran).0, LimitCheck(p));
    }
  }

  lemma GripCallStaysInLimits<S>(p: ArmProfile, d: Driver<S>, a: Arm<S>, request: Request)
    requires p.Valid()
    ensures Adds(a, Grips(p, d, a, request).0, LimitCheck(p))
  {
    hide RunGrip, Adds, GripTarget, Guarded, LimitCheck;
    AddsNothing(a, a, LimitCheck(p));
    if p.gripper.Some? && GripTarget(p.gripper.value, request).Some? && !MotionBlocked(p, a) {
      var g := p.gripper.value;
      var target := GripTarget(g, request).value;
      var (after, ran) := RunGrip(p, g, d, a, request.capability.Grasps?, target);
      GripTargetInLimits(p, g, request);
      GripStaysInLimits(p, g, d, a, request.capability.Grasps?, target);
      GuardedAdds(p, request.callId, after, ran);
      AddsThen(a, after, Guarded(request.callId, after, ran).0, LimitCheck(p));
    }
  }

  lemma ReadStateAdds<S>(p: ArmProfile, d: Driver<S>, a: Arm<S>, ok: Entry -> bool)
    requires ok(Faulted) && ok(StateRead)
    ensures Adds(a, ReadState(p, d, a).0, ok)
  {
    hide Adds, ReadPose, ReadTorque;
    var (a1, pose) := ReadPose(p, d, a);
    ReadAdds(p, d, a, ok);
    var (a2, torque) := if pose.Ok? then ReadTorque(p, d, a1) else (a1, Err(pose.error));
    ReadTorqueAdds(p, d, a1, ok);
    AddsNothing(a1, a1, ok);
    AddsThen(a, a1, a2, ok);
    AddsNothing(a2, a2.(stateUnknown := true), ok);
    AddsThen(a, a2, a2.(stateUnknown := true), ok);
    if torque.Ok? {
      LastAdds(a, a2, ReadState(p, d, a).0, StateRead, ok);
    }
  }

  lemma ReadingsAllowed(p: ArmProfile)
    ensures LimitCheck(p)(Faulted) && LimitCheck(p)(StateRead)
  {
  }

  /** Whatever is called and whatever the bus reports: no motion writes outside the
      limits, and none a joint the profile does not declare. */
  lemma InvokeStaysInLimits<S>(p: ArmProfile, d: Driver<S>, w: Adapter<S>, request: Request)
    requires p.Valid()
    ensures Adds(w.arm, Invoke(p, d, w, request).0.arm, LimitCheck(p))
  {
    hide Adds, Stop, ReadState, Move, Grips, LimitCheck, AllowsStops, AllowsPreparing;
    LimitsAllow(p);
    ReadingsAllowed(p);
    AddsNothing(w.arm, w.arm, LimitCheck(p));
    StopAdds(p, d, w.arm, LimitCheck(p));
    ReadStateAdds(p, d, w.arm, LimitCheck(p));
    MoveCallStaysInLimits(p, d, w.arm, request);
    GripCallStaysInLimits(p, d, w.arm, request);
  }

  // ---------------------------------------------------------------------------
  // Limits nobody accepted
  // ---------------------------------------------------------------------------

  /** Nothing a motion asks of the bus. */
  ghost function NoMotion(): Entry -> bool {
    (e: Entry) => !((e.Goals? || e.Torque?) && e.origin.ByMotion?) && !e.MotionEnded?
  }

  /** While the limits are not accepted no call moves anything: a stop and a state
      read are all that touch the bus. */
  lemma UnacceptedNeverMoves<S>(p: ArmProfile, d: Driver<S>, w: Adapter<S>, request: Request)
    requires p.Valid() && !p.limitsAccepted
    ensures Adds(w.arm, Invoke(p, d, w, request).0.arm, NoMotion())
  {
    assert AllowsStops(NoMotion());
    hide Adds, Stop, ReadState, Targets, GripTarget;
    AddsNothing(w.arm, w.arm, NoMotion());
    StopAdds(p, d, w.arm, NoMotion());
    ReadStateAdds(p, d, w.arm, NoMotion());
  }
}
