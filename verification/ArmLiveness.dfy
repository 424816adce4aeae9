/** What a move does on a healthy simulated bus: it ends completed with every joint
    exactly at its target after the writes its largest gap needs, unless those take
    longer than the deadline (flyto_robotics/arm_adapter.py, flyto_robotics/arm_bus.py). */
module ArmLiveness {
  import opened Wrappers
  import opened ArmProfile
  import opened ArmBus
  import opened ArmMotion
  import opened ArmCalls
  import opened ArmSetpoints
  import opened ArmSafety
  import opened ArmContracts
  import opened ArmEvidence

  /** A simulated bus with no fault and no object, whose servos keep up with the
      setpoints. */
  predicate Healthy(p: ArmProfile, s: Sim) {
    && s.Valid() && s.connected && s.stalled == {} && s.missing == {} && s.objects == [] && s.sag == 0.0
    && s.dropAfterWrites.None?
    && p.Names() <= s.goals.Keys && p.Names() <= s.torque.Keys
    && MoveStep(p) <= s.servoStep
  }

  /** A new simulated arm is such a bus. */
  lemma NewBusIsHealthy(p: ArmProfile, joints: set<string>, at: Pose, torque: bool, servoStep: real)
    requires p.Names() <= joints && MoveStep(p) <= servoStep
    ensures Healthy(p, NewSim(joints, at, torque, servoStep))
  {
  }

  predicate At(p: ArmProfile, s: Sim, pose: Pose) {
    pose.Keys == p.Names() <= s.positions.Keys && forall n :: n in p.Names() ==> s.positions[n] == pose[n]
  }

  predicate Told(p: ArmProfile, s: Sim, pose: Pose) {
    pose.Keys == p.Names() <= s.goals.Keys && forall n :: n in p.Names() ==> s.goals[n] == pose[n]
  }

  predicate Energised(p: ArmProfile, s: Sim) {
    p.Names() <= s.torque.Keys && forall n :: n in p.Names() ==> s.torque[n]
  }

  // ---------------------------------------------------------------------------
  // How many writes a move needs
  // ---------------------------------------------------------------------------

  function LargestGap(joints: seq<JointLimit>, start: Pose, target: Pose): real
    requires forall j :: j in joints ==> j.name in start && j.name in target
  {
    MaxDrift(joints, target, start, 0.0)
  }

  /** The largest gap in steps, rounded up, and at least one. */
  function WritesNeeded(p: ArmProfile, start: Pose, target: Pose): (n: nat)
    requires start.Keys == target.Keys == p.Names() && 0.0 < MoveStep(p)
    ensures 1 <= n
  {
    var steps := Ceiling(LargestGap(p.joints, start, target) / MoveStep(p));
    if steps < 1 then 1 else steps
  }

  lemma CeilingIsLeast(gap: real, step: real, k: nat)
    requires 0.0 < step
    ensures gap <= k as real * step <==> Ceiling(gap / step) <= k
  {
    var q := QuotientOf(gap, step);
    Scaled(q, k as real, step);
  }

  lemma Scaled(x: real, y: real, step: real)
    requires 0.0 < step
    ensures x <= y <==> x * step <= y * step
  {
    if x <= y {
      assert 0.0 <= (y - x) * step;
    } else {
      assert 0.0 < (x - y) * step;
    }
  }

  lemma TimesGrows(x: real, y: real, period: real)
    requires x < y && 0.0 < period
    ensures x * period < y * period
  {
    assert 0.0 < (y - x) * period;
  }

  /** From at least one write on, the setpoint is the target exactly when it needs
      no more. */
  lemma LineEndsWhenNeeded(p: ArmProfile, start: Pose, target: Pose, k: nat)
    requires start.Keys == target.Keys == p.Names() && 0.0 < MoveStep(p) && 1 <= k
    ensures PoseAlong(start, target, MoveStep(p), k) == target <==> WritesNeeded(p, start, target) <= k
  {
    hide Along, MoveStep, Ceiling;
    var step := MoveStep(p);
    MaxDriftIsLeastBound(p.joints, target, start, 0.0);
    CeilingIsLeast(LargestGap(p.joints, start, target), step, k);
    OneMoreStep(step, k);
    forall n | n in p.Names()
      ensures Along(start[n], target[n], step, k) == target[n] <==> Abs(target[n] - start[n]) <= k as real * step
    {
      LineIsRateLimited(start[n], target[n], step, k);
    }
    assert PoseAlong(start, target, step, k) == target
           <==> forall n :: n in p.Names() ==> PoseAlong(start, target, step, k)[n] == target[n];
  }

  // ---------------------------------------------------------------------------
  // One call on a healthy bus
  // ---------------------------------------------------------------------------

  lemma HealthyRead(p: ArmProfile, a: Arm<Sim>)
    requires Healthy(p, a.bus)
    ensures var (after, pose) := ReadPose(p, SimDriver(), a);
            && pose.Ok? && after == a.(bus := a.bus.(positions := Servoed(a.bus)))
            && Healthy(p, after.bus) && At(p, after.bus, pose.value)
            && forall n :: n in p.Names() ==> pose.value[n] == Servoed(a.bus)[n]
  {
    hide Servoed, MoveStep;
    ServoedKeys(a.bus);
    AppliesNone(Touch(Servoed(a.bus), [], a.bus.released), a.bus.objects);
    assert a.bus.objects == [] && a.bus.objects + [] == [];
  }

  lemma ServoedKeys(s: Sim)
    requires s.Valid()
    ensures Servoed(s).Keys == s.positions.Keys
  {
  }

  lemma HealthyTorque(p: ArmProfile, a: Arm<Sim>)
    requires Healthy(p, a.bus)
    ensures var (after, torque) := ReadTorque(p, SimDriver(), a);
            torque.Ok? && after == a && (AllOn(torque.value) <==> Energised(p, a.bus))
  {
  }

  lemma HealthyWrite(p: ArmProfile, a: Arm<Sim>, origin: Origin, goals: Pose)
    requires Healthy(p, a.bus) && goals.Keys == p.Names()
    ensures var (after, wrote) := WriteGoals(SimDriver(), a, origin, goals);
            && wrote.Ok? && after.now == a.now && after.trace == a.trace + [Goals(origin, goals)]
            && Healthy(p, after.bus) && Told(p, after.bus, goals)
            && after.bus.positions == a.bus.positions && after.bus.torque == a.bus.torque
  {
    hide MoveStep;
  }

  lemma HealthyEnergise(p: ArmProfile, a: Arm<Sim>, origin: Origin)
    requires Healthy(p, a.bus)
    ensures var (after, wrote) := SetTorque(SimDriver(), a, origin, true);
            && wrote.Ok? && after.now == a.now && after.trace == a.trace + [Torque(origin, true)]
            && Healthy(p, after.bus) && Energised(p, after.bus) && after.bus.positions == a.bus.positions
  {
    hide MoveStep;
  }

  /** Servos told a pose no farther than they reach are at it after one read. */
  lemma ServosReach(p: ArmProfile, s: Sim, from: Pose, pose: Pose)
    requires Healthy(p, s) && Energised(p, s) && Told(p, s, pose) && At(p, s, from)
    requires forall n :: n in p.Names() ==> Abs(pose[n] - from[n]) <= s.servoStep
    ensures At(p, s.(positions := Servoed(s)), pose)
  {
  }

  // ---------------------------------------------------------------------------
  // The loop on a healthy bus
  // ---------------------------------------------------------------------------

  /** The arm is where its setpoint is, `k` writes along the line. */
  ghost predicate OnTheLine(p: ArmProfile, start: Pose, target: Pose, k: nat, l: Loop<Sim>) {
    && start.Keys <= target.Keys
    && l.setpoint == PoseAlong(start, target, MoveStep(p), k) && l.positions == l.setpoint
    && Healthy(p, l.arm.bus) && Energised(p, l.arm.bus) && At(p, l.arm.bus, l.setpoint)
  }

  lemma StepIsReached(p: ArmProfile, start: Pose, target: Pose, k: nat)
    requires 0.0 < MoveStep(p) && start.Keys == target.Keys == p.Names()
    ensures var step := MoveStep(p);
            forall n :: n in p.Names() ==>
              Abs(PoseAlong(start, target, step, k + 1)[n] - PoseAlong(start, target, step, k)[n]) <= step
  {
    hide Along, MoveStep;
    forall n | n in p.Names()
      ensures Abs(Along(start[n], target[n], MoveStep(p), k + 1) - Along(start[n], target[n], MoveStep(p), k)) <= MoveStep(p)
    {
      LineIsRateLimited(start[n], target[n], MoveStep(p), k);
    }
  }

  /** A reading that is the setpoint: nothing has stalled, and it has arrived exactly
      when the setpoint is the target. */
  lemma JudgedAtSetpoint(p: ArmProfile, target: Pose, l: Loop<Sim>)
    requires 0.0 < p.tolerance && l.Covers(p.Names()) && target.Keys == p.Names() && l.positions == l.setpoint
    ensures Judge(p, target, l) == if l.setpoint == target then Some(Arrived) else None
  {
  }

  lemma AlongKeys(start: Pose, target: Pose, step: real, k: nat)
    requires start.Keys <= target.Keys
    ensures PoseAlong(start, target, step, k).Keys == start.Keys
  {
  }

  /** Writing the next setpoint and reading back a period later. */
  lemma NextSetpointIsReached(p: ArmProfile, start: Pose, target: Pose, k: nat, a: Arm<Sim>)
    requires p.Valid() && start.Keys == target.Keys == p.Names()
    requires Healthy(p, a.bus) && Energised(p, a.bus) && At(p, a.bus, PoseAlong(start, target, MoveStep(p), k))
    ensures var setpoint := PoseAlong(start, target, MoveStep(p), k + 1);
            var (a1, wrote) := WriteGoals(SimDriver(), a, ByMotion, setpoint);
            var (a2, pose) := ReadPose(p, SimDriver(), Slept(a1, p.period));
            && wrote.Ok? && pose == Ok(setpoint) && a2.now == a.now + p.period
            && a2.trace == a.trace + [Goals(ByMotion, setpoint)]
            && Healthy(p, a2.bus) && Energised(p, a2.bus) && At(p, a2.bus, setpoint) && Told(p, a2.bus, setpoint)
  {
    hide PoseAlong, MoveStep, WriteGoals, ReadPose, Healthy, Servoed, At, Told, Energised;
    var setpoint := PoseAlong(start, target, MoveStep(p), k + 1);
    AlongKeys(start, target, MoveStep(p), k + 1);
    StepIsPositive(p);
    var (a1, wrote) := WriteGoals(SimDriver(), a, ByMotion, setpoint);
    HealthyWrite(p, a, ByMotion, setpoint);
    StaysEnergised(p, a.bus, a1.bus);
    StaysAt(p, a.bus, a1.bus, PoseAlong(start, target, MoveStep(p), k));
    var (a2, pose) := ReadPose(p, SimDriver(), Slept(a1, p.period));
    HealthyRead(p, Slept(a1, p.period));
    ReadReaches(p, start, target, k, a1.bus);
    SamePlace(p, a2.bus, pose.value, setpoint);
    StaysEnergised(p, a1.bus, a2.bus);
    StaysTold(p, a1.bus, a2.bus, setpoint);
  }

  lemma PassStaysOnTheLine(p: ArmProfile, start: Pose, target: Pose, k: nat, deadline: real, l: Loop<Sim>)
    requires p.Valid() && start.Keys == target.Keys == p.Names() && l.Covers(p.Names())
    requires OnTheLine(p, start, target, k, l) && l.arm.now <= deadline
    ensures 0.0 < MoveStep(p)
    ensures var (next, ending) := Pass(p, SimDriver(), target, deadline, l);
            && OnTheLine(p, start, target, k + 1, next)
            && ending == (if WritesNeeded(p, start, target) <= k + 1 then Some(Arrived) else None)
            && next.arm.now == l.arm.now + p.period && Told(p, next.arm.bus, next.setpoint)
            && next.arm.trace == l.arm.trace + [Goals(ByMotion, PoseAlong(start, target, MoveStep(p), k + 1))]
  {
    hide PoseAlong, Advanced, MoveStep, Judge, Noted, WriteGoals, ReadPose, Healthy, At, Told, Energised, WritesNeeded;
    StepIsPositive(p);
    PoseFollowsLine(start, target, MoveStep(p), k);
    NextSetpointIsReached(p, start, target, k, l.arm);
    var setpoint := Advanced(l.setpoint, target, MoveStep(p));
    var (a1, wrote) := WriteGoals(SimDriver(), l.arm, ByMotion, setpoint);
    var (a2, pose) := ReadPose(p, SimDriver(), Slept(a1, p.period));
    var read_ := l.(arm := a2, setpoint := setpoint, positions := pose.value);
    var (reference, progressAt) := Noted(p, read_, pose.value);
    AlongKeys(start, target, MoveStep(p), k + 1);
    NotedCovers(p, read_, pose.value);
    JudgedAtSetpoint(p, target, read_.(reference := reference, progressAt := progressAt));
    LineEndsWhenNeeded(p, start, target, k + 1);
  }

  lemma NotedCovers(p: ArmProfile, l: Loop<Sim>, pose: Pose)
    requires l.Covers(p.Names()) && pose.Keys == p.Names()
    ensures Noted(p, l, pose).0.Keys == p.Names() && Noted(p, l, pose).1.Keys == p.Names()
  {
  }

  lemma StaysEnergised(p: ArmProfile, s: Sim, t: Sim)
    requires Energised(p, s) && t.torque == s.torque
    ensures Energised(p, t)
  {
  }

  lemma StaysAt(p: ArmProfile, s: Sim, t: Sim, pose: Pose)
    requires At(p, s, pose) && t.positions == s.positions
    ensures At(p, t, pose)
  {
  }

  lemma StaysTold(p: ArmProfile, s: Sim, t: Sim, pose: Pose)
    requires Told(p, s, pose) && t.goals == s.goals
    ensures Told(p, t, pose)
  {
  }

  lemma SamePlace(p: ArmProfile, s: Sim, pose: Pose, other: Pose)
    requires At(p, s, pose) && At(p, s, other)
    ensures pose == other
  {
  }

  lemma ReadReaches(p: ArmProfile, start: Pose, target: Pose, k: nat, s: Sim)
    requires 0.0 < MoveStep(p) && start.Keys == target.Keys == p.Names() && Healthy(p, s) && Energised(p, s)
    requires At(p, s, PoseAlong(start, target, MoveStep(p), k)) && Told(p, s, PoseAlong(start, target, MoveStep(p), k + 1))
    ensures At(p, s.(positions := Servoed(s)), PoseAlong(start, target, MoveStep(p), k + 1))
  {
    hide PoseAlong, MoveStep, At, Told, Servoed, Energised;
    StepIsReached(p, start, target, k);
    ServosReach(p, s, PoseAlong(start, target, MoveStep(p), k), PoseAlong(start, target, MoveStep(p), k + 1));
  }

  /** The time one more pass takes. */
  function Later(now: real, k: nat, period: real): real {
    now + k as real * period
  }

  lemma OneMorePeriod(now: real, k: nat, period: real)
    requires 0.0 < period
    ensures Later(now + period, k, period) == Later(now, k + 1, period) && Later(now, 0, period) == now
    ensures now <= Later(now, k, period) < Later(now, k + 1, period)
  {
  }

  /** Arrived after the rest of the writes needed. */
  ghost predicate ArrivedAfter(p: ArmProfile, start: Pose, target: Pose, k: nat, from: Arm<Sim>, last: Loop<Sim>)
    requires start.Keys == target.Keys == p.Names() && 0.0 < MoveStep(p)
  {
    var needed := WritesNeeded(p, start, target);
    && k <= needed && OnTheLine(p, start, target, needed, last) && Told(p, last.arm.bus, last.setpoint)
    && last.arm.now == Later(from.now, needed - k, p.period)
    && last.arm.trace == from.trace + LineWrites(start, target, MoveStep(p), k, needed - k)
  }

  lemma ArrivedNow(p: ArmProfile, start: Pose, target: Pose, k: nat, from: Arm<Sim>, last: Loop<Sim>)
    requires start.Keys == target.Keys == p.Names() && 0.0 < MoveStep(p) && WritesNeeded(p, start, target) == k + 1
    requires OnTheLine(p, start, target, k + 1, last) && Told(p, last.arm.bus, last.setpoint)
    requires last.arm.now == from.now + p.period
    requires last.arm.trace == from.trace + [Goals(ByMotion, PoseAlong(start, target, MoveStep(p), k + 1))]
    ensures ArrivedAfter(p, start, target, k, from, last)
  {
    hide OnTheLine, PoseAlong, MoveStep, WritesNeeded, Told;
    LineWritesFrom(start, target, MoveStep(p), k, 0);
    assert Later(from.now, 1, p.period) == from.now + p.period;
  }

  lemma ArrivedLater(p: ArmProfile, start: Pose, target: Pose, k: nat, from: Arm<Sim>, next: Arm<Sim>, last: Loop<Sim>)
    requires start.Keys == target.Keys == p.Names() && 0.0 < MoveStep(p) && 0.0 < p.period
    requires ArrivedAfter(p, start, target, k + 1, next, last)
    requires next.now == from.now + p.period
    requires next.trace == from.trace + [Goals(ByMotion, PoseAlong(start, target, MoveStep(p), k + 1))]
    ensures ArrivedAfter(p, start, target, k, from, last)
  {
    hide OnTheLine, PoseAlong, MoveStep, WritesNeeded, Told, Later;
    var needed := WritesNeeded(p, start, target);
    LineWritesFrom(start, target, MoveStep(p), k, needed - k - 1);
    OneMorePeriod(from.now, needed - k - 1, p.period);
  }

  lemma LateLoopEnds<S>(p: ArmProfile, d: Driver<S>, targets: Pose, deadline: real, l: Loop<S>)
    requires 0.0 < p.period && l.Covers(p.Names()) && targets.Keys == p.Names() && l.arm.now > deadline
    requires !d.stopRequested(l.arm.bus, AtTop)
    ensures Looped(p, d, targets, deadline, l).1.OutOfTime?
  {
  }

  /** From `k` writes on: if the last pass still starts by the deadline, the loop
      arrives with the writes needed, else it runs out of time. */
  lemma {:induction false} LoopArrivesInTime(p: ArmProfile, start: Pose, target: Pose, k: nat, deadline: real, l: Loop<Sim>)
    requires p.Valid() && start.Keys == target.Keys == p.Names() && l.Covers(p.Names()) && 0.0 < MoveStep(p)
    requires OnTheLine(p, start, target, k, l) && k < WritesNeeded(p, start, target)
    ensures var (last, ending) := Looped(p, SimDriver(), target, deadline, l);
            if Later(l.arm.now, WritesNeeded(p, start, target) - 1 - k, p.period) <= deadline
            then ending.Arrived? && ArrivedAfter(p, start, target, k, l.arm, last)
            else ending.OutOfTime?
    decreases PassesLeft(l.arm.now, deadline, p.period)
  {
    hide Pass, OnTheLine, PoseAlong, MoveStep, WritesNeeded, Later, Told, ArrivedAfter;
    var needed := WritesNeeded(p, start, target);
    OneMorePeriod(l.arm.now, needed - 1 - k, p.period);
    if l.arm.now > deadline {
      LateLoopEnds(p, SimDriver(), target, deadline, l);
    } else {
      var (next, ending) := Pass(p, SimDriver(), target, deadline, l);
      PassStaysOnTheLine(p, start, target, k, deadline, l);
      if needed == k + 1 {
        OneMorePeriod(l.arm.now, 0, p.period);
        ArrivedNow(p, start, target, k, l.arm, next);
      } else {
        OnePassLess(l.arm.now, deadline, p.period);
        OneMorePeriod(l.arm.now, needed - 2 - k, p.period);
        LoopArrivesInTime(p, start, target, k + 1, deadline, next);
        if Later(l.arm.now, needed - 1 - k, p.period) <= deadline {
          ArrivedLater(p, start, target, k, l.arm, next.arm, Looped(p, SimDriver(), target, deadline, l).0);
        }
      }
    }
  }

  // ---------------------------------------------------------------------------
  // Before and after the loop
  // ---------------------------------------------------------------------------

  lemma NoDrift(p: ArmProfile, pose: Pose)
    requires pose.Keys == p.Names()
    ensures MaxDrift(p.joints, pose, pose, 0.0) == 0.0
  {
    MaxDriftIsLeastBound(p.joints, pose, pose, 0.0);
  }

  /** Servos told where they are stay there through every sample. */
  lemma {:induction false} SamplesStay(p: ArmProfile, a: Arm<Sim>, pose: Pose, count: nat, interval: real)
    requires p.Valid() && Healthy(p, a.bus) && Energised(p, a.bus) && At(p, a.bus, pose) && Told(p, a.bus, pose)
    ensures var (after, sampled) := Sampled(p, SimDriver(), a, pose, count, interval, pose, 0.0);
            sampled == Ok((pose, 0.0)) && At(p, after.bus, pose) && Told(p, after.bus, pose) && after.trace == a.trace
    decreases count
  {
    hide ReadPose, Healthy, Energised, At, Told, Servoed;
    PosesNameJoints(p, a.bus, pose);
    if count > 0 {
      NoDrift(p, pose);
      var (after, reading) := ReadPose(p, SimDriver(), Slept(a, interval));
      HealthyRead(p, Slept(a, interval));
      StaysPut(p, a.bus, pose);
      SamePlace(p, after.bus, reading.value, pose);
      StaysEnergised(p, a.bus, after.bus);
      StaysTold(p, a.bus, after.bus, pose);
      SamplesStay(p, after, pose, count - 1, interval);
    }
  }

  lemma PosesNameJoints(p: ArmProfile, s: Sim, pose: Pose)
    requires At(p, s, pose)
    ensures pose.Keys == p.Names()
  {
  }

  lemma StaysPut(p: ArmProfile, s: Sim, pose: Pose)
    requires p.Valid() && Healthy(p, s) && Energised(p, s) && At(p, s, pose) && Told(p, s, pose)
    ensures At(p, s.(positions := Servoed(s)), pose)
  {
    hide Servoed, MoveStep, Energised;
    StepIsPositive(p);
    ServosReach(p, s, pose, pose);
  }

  /** A healthy arm within its limits is always ready: where it was read, holding it
      with torque on. */
  lemma HealthyIsReady(p: ArmProfile, a: Arm<Sim>)
    requires p.Valid() && Healthy(p, a.bus) && p.InLimits(ReadPose(p, SimDriver(), a).1.value)
    ensures var (after, ready) := Prepare(p, SimDriver(), a, Anywhere());
            var before := ReadPose(p, SimDriver(), a).1.value;
            && ready == Ok(Ready(before)) && after.now == a.now
            && Healthy(p, after.bus) && Energised(p, after.bus) && At(p, after.bus, before)
            && after.trace == a.trace + if Energised(p, a.bus) then [] else [Goals(ByMotion, before), Torque(ByMotion, true)]
  {
    hide ReadPose, ReadTorque, WriteGoals, SetTorque, Healthy, Energised, At, Told, Servoed, AllOn;
    var (a1, pose) := ReadPose(p, SimDriver(), a);
    HealthyRead(p, a);
    var before := pose.value;
    HealthyTorque(p, a1);
    SameTorque(p, a.bus, a1.bus);
    if !Energised(p, a1.bus) {
      var a2 := WriteGoals(SimDriver(), a1, ByMotion, before).0;
      HealthyWrite(p, a1, ByMotion, before);
      StaysAt(p, a1.bus, a2.bus, before);
      var a3 := SetTorque(SimDriver(), a2, ByMotion, true).0;
      HealthyEnergise(p, a2, ByMotion);
      StaysAt(p, a2.bus, a3.bus, before);
      HealthyTorque(p, a3);
    }
  }

  lemma SameTorque(p: ArmProfile, s: Sim, t: Sim)
    requires t.torque == s.torque
    ensures Energised(p, s) <==> Energised(p, t)
  {
  }

  lemma StartsOnTheLine(p: ArmProfile, a: Arm<Sim>, start: Pose, target: Pose)
    requires p.Valid() && start.Keys == target.Keys == p.Names()
    requires Healthy(p, a.bus) && Energised(p, a.bus) && At(p, a.bus, start)
    ensures OnTheLine(p, start, target, 0, StartLoop(a, start)) && StartLoop(a, start).Covers(p.Names()) && 0.0 < MoveStep(p)
  {
    hide MoveStep, Healthy, Energised, At, PoseAlong;
    StepIsPositive(p);
    PoseFollowsLine(start, target, MoveStep(p), 0);
  }

  /** At the target, told it: the move settles there. */
  lemma SettlesAtTarget(p: ArmProfile, start: Pose, target: Pose, l: Loop<Sim>)
    requires p.Valid() && start.Keys == target.Keys == p.Names() && 0.0 < MoveStep(p) && l.Covers(p.Names())
    requires OnTheLine(p, start, target, WritesNeeded(p, start, target), l) && Told(p, l.arm.bus, l.setpoint)
    ensures var (after, ended) := EndMove(p, SimDriver(), start, l, Arrived);
            && ended == Ok(CallResult(Completed, ReasonCompleted, map[JointPositions := SettledPhases(start, target, target)],
                                      None, None))
            && At(p, after.bus, target) && after.trace == l.arm.trace
  {
    hide Healthy, Energised, At, Told, PoseAlong, WritesNeeded, MoveStep, Sampled, PhaseOf;
    LineEndsWhenNeeded(p, start, target, WritesNeeded(p, start, target));
    SamplesStay(p, l.arm, target, p.settleSamples, p.period);
  }

  /** On a healthy simulated bus, from wherever its joints are first read within
      their limits, a move completes with every joint exactly at its target after as
      many writes as the largest gap has steps (at least one), if and only if the
      last of those writes starts by the deadline; otherwise it times out. */
  lemma HealthyMove(p: ArmProfile, a: Arm<Sim>, target: Pose)
    requires p.Valid() && Healthy(p, a.bus) && target.Keys == p.Names() && p.InLimits(ReadPose(p, SimDriver(), a).1.value)
    ensures 0.0 < MoveStep(p)
    ensures var start := ReadPose(p, SimDriver(), a).1.value;
            var needed := WritesNeeded(p, start, target);
            var (after, ended) := RunMove(p, SimDriver(), a, target);
            if Later(0.0, needed - 1, p.period) <= p.moveDeadline then
              && ended == Ok(CallResult(Completed, ReasonCompleted,
                                        map[JointPositions := SettledPhases(start, target, target)], None, None))
              && At(p, after.bus, target)
              && after.trace == a.trace
                                + (if Energised(p, a.bus) then [] else [Goals(ByMotion, start), Torque(ByMotion, true)])
                                + LineWrites(start, target, MoveStep(p), 0, needed)
            else
              ended.Ok? && ended.value.outcome.TimedOut?
  {
    hide ReadPose, Prepare, Looped, EndMove, Healthy, Energised, At, Told, OnTheLine, WritesNeeded, MoveStep, PoseAlong, Later,
      LineWrites, SettledPhases, StartLoop;
    StepIsPositive(p);
    HealthyRead(p, a);
    HealthyIsReady(p, a);
    var start := ReadPose(p, SimDriver(), a).1.value;
    var a1 := Prepare(p, SimDriver(), a, Anywhere()).0;
    StartsOnTheLine(p, a1, start, target);
    var l := StartLoop(a1, start);
    StartsFrom(a1, start);
    var deadline := a1.now + p.moveDeadline;
    LoopArrivesInTime(p, start, target, 0, deadline, l);
    var (last, ending) := Looped(p, SimDriver(), target, deadline, l);
    Shifted(a1.now, WritesNeeded(p, start, target) - 1, p.period);
    if ending.Arrived? {
      SettlesAtTarget(p, start, target, last);
    } else {
      TimesOut(p, SimDriver(), start, last);
    }
  }

  lemma StartsFrom(a: Arm<Sim>, start: Pose)
    ensures StartLoop(a, start).arm == a
  {
  }

  lemma Shifted(now: real, k: nat, period: real)
    ensures Later(now, k, period) == now + Later(0.0, k, period)
  {
  }

  lemma TimesOut<S>(p: ArmProfile, d: Driver<S>, before: Pose, l: Loop<S>)
    requires l.Covers(p.Names())
    ensures var ended := EndMove(p, d, before, l, OutOfTime).1; ended.Ok? && ended.value.outcome.TimedOut?
  {
    hide Stop;
  }

  /** The call itself: accepted limits, no latched fault, targets within limits. */
  lemma HealthyMoveCompletes(p: ArmProfile, a: Arm<Sim>, request: Request)
    requires p.Valid() && Healthy(p, a.bus) && p.InLimits(ReadPose(p, SimDriver(), a).1.value)
    requires Targets(p, request.arguments).Some? && !MotionBlocked(p, a)
    ensures 0.0 < MoveStep(p)
    ensures var target := Targets(p, request.arguments).value;
            var needed := WritesNeeded(p, ReadPose(p, SimDriver(), a).1.value, target);
            var (after, result) := Move(p, SimDriver(), a, request);
            && (result.outcome.Completed? <==> Later(0.0, needed - 1, p.period) <= p.moveDeadline)
            && (result.outcome.Completed? ==> At(p, after.bus, target))
            && (!result.outcome.Completed? ==> result.outcome.TimedOut?)
  {
    hide ReadPose, RunMove, Healthy, At, WritesNeeded, MoveStep, Later, Targets, Energised, LineWrites, SettledPhases;
    var target := Targets(p, request.arguments).value;
    HealthyMove(p, a, target);
  }
}
