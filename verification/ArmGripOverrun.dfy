/** The longest grips happen: for every profile a bus on which a release, or a grasp
    whose object slips, makes every pass its deadline allows before it is sampled
    (flyto_robotics/arm_adapter.py, flyto_robotics/arm_contracts.py). */
module ArmGripOverrun {
  import opened Wrappers
  import opened ArmProfile
  import opened ArmBus
  import opened ArmMotion
  import opened ArmGrip
  import opened ArmCalls
  import opened ArmSetpoints
  import opened ArmSafety
  import opened ArmContracts
  import opened ArmLiveness
  import opened ArmTiming
  import opened ArmOverrun
  import opened ArmExample

  // ---------------------------------------------------------------------------
  // A bus that plays jaw positions
  // ---------------------------------------------------------------------------

  type Jaws = nat -> real

  function PoseWith(p: ArmProfile, joint: string, x: real): Pose {
    map n | n in p.Names() :: if n == joint then x else p.Limit(n).minRad
  }

  /** A bus whose `n`-th reading has the jaws at `jaws(n)`, torque on, and that obeys
      nothing. */
  function Player(p: ArmProfile, joint: string, jaws: Jaws): Driver<Count> {
    Driver((c: Count) => (Count(c.times + 1), Ok(PoseWith(p, joint, jaws(c.times)))),
           c => (c, Ok(map name | name in p.Names() :: true)), (c, _) => (c, Ok(())), (c, _) => (c, Ok(())), (_, _) => false)
  }

  lemma PoseKeys(p: ArmProfile, joint: string, x: real)
    ensures PoseWith(p, joint, x).Keys == p.Names() && (joint in p.Names() ==> PoseWith(p, joint, x)[joint] == x)
  {
  }

  lemma PlaysNext(p: ArmProfile, joint: string, jaws: Jaws, a: Arm<Count>)
    ensures ReadPose(p, Player(p, joint, jaws), a)
            == (a.(bus := Count(a.bus.times + 1)), Ok(PoseWith(p, joint, jaws(a.bus.times))))
  {
    hide PoseWith;
    var pose := PoseWith(p, joint, jaws(a.bus.times));
    PoseKeys(p, joint, jaws(a.bus.times));
    assert pose == map n | n in p.Names() :: pose[n];
  }

  lemma TorqueReads(p: ArmProfile, joint: string, jaws: Jaws, a: Arm<Count>)
    ensures ReadTorque(p, Player(p, joint, jaws), a) == (a, Ok(map name | name in p.Names() :: true))
  {
    hide PoseWith;
    var torque := map name | name in p.Names() :: true;
    assert torque.Keys == p.Names();
    assert torque == map n | n in p.Names() :: torque[n];
  }

  lemma ObeysNothing(p: ArmProfile, joint: string, jaws: Jaws, a: Arm<Count>, origin: Origin, goals: Pose, on: bool)
    ensures WriteGoals(Player(p, joint, jaws), a, origin, goals) == (Logged(a, Goals(origin, goals)), Ok(()))
    ensures SetTorque(Player(p, joint, jaws), a, origin, on) == (Logged(a, Torque(origin, on)), Ok(()))
  {
    hide PoseWith;
  }

  /** Sampling it takes exactly as long as its sleeps. */
  lemma {:induction false} SamplesPlay(p: ArmProfile, joint: string, jaws: Jaws, a: Arm<Count>, reference: Pose, count: nat,
                                       interval: real, last: Pose, drift: real)
    requires reference.Keys == p.Names() && last.Keys == p.Names() && 0.0 <= interval
    ensures var (after, sampled) := Sampled(p, Player(p, joint, jaws), a, reference, count, interval, last, drift);
            after.now == a.now + Span(count, interval) && sampled.Ok?
    decreases count
  {
    hide ReadPose, Span, Player, PoseWith;
    if count == 0 {
      NoSpan(interval);
    } else {
      var b := Slept(a, interval);
      PlaysNext(p, joint, jaws, b);
      SpanStep(count, interval);
      var (after, pose) := ReadPose(p, Player(p, joint, jaws), b);
      SamplesPlay(p, joint, jaws, after, reference, count - 1, interval, pose.value,
                  MaxDrift(p.joints, pose.value, reference, drift));
    }
  }

  lemma HoldPlays(p: ArmProfile, joint: string, jaws: Jaws, a: Arm<Count>)
    requires p.Valid()
    ensures var (after, report) := Hold(p, Player(p, joint, jaws), a); after.now == a.now + StopBudget(p) && report.Ok?
  {
    hide ReadPose, ReadTorque, WriteGoals, SetTorque, Sampled, HoldObservations, Span, Player, AllOn;
    var d := Player(p, joint, jaws);
    var (a1, held) := ReadPose(p, d, a);
    PlaysNext(p, joint, jaws, a);
    ObeysNothing(p, joint, jaws, a1, ByStop, held.value, true);
    var a2 := WriteGoals(d, a1, ByStop, held.value).0;
    ObeysNothing(p, joint, jaws, a2, ByStop, held.value, true);
    var a3 := SetTorque(d, a2, ByStop, true).0;
    TorqueReads(p, joint, jaws, a3);
    SamplesPlay(p, joint, jaws, a3, held.value, p.stopSamples, p.stopPeriod, held.value, 0.0);
    BudgetsAreSpans(p);
  }

  /** A stop on it takes exactly its time. */
  lemma StopPlays(p: ArmProfile, joint: string, jaws: Jaws, a: Arm<Count>)
    requires p.Valid()
    ensures Stop(p, Player(p, joint, jaws), a).0.now == a.now + StopTime(p)
  {
    hide Hold, ReadTorque, SetTorque, Player, StopBudget;
    HoldPlays(p, joint, jaws, a);
    ObeysNothing(p, joint, jaws, a, ByStop, map[], false);
    TorqueReads(p, joint, jaws, SetTorque(Player(p, joint, jaws), a, ByStop, false).0);
  }

  /** Samples of jaws that stay at one position. */
  lemma {:induction false} JawSamplesPlay(p: ArmProfile, joint: string, jaws: Jaws, a: Arm<Count>, reference: real, count: nat,
                                          last: real, drift: real, x: real)
    requires joint in p.Names() && 0.0 <= p.period && (forall n: nat :: a.bus.times <= n ==> jaws(n) == x)
    ensures var (after, sampled) := SampledJaws(p, joint, Player(p, joint, jaws), a, reference, count, last, drift);
            && after.now == a.now + Span(count, p.period)
            && sampled == Ok(if count == 0 then (last, drift) else (x, Max(drift, Abs(x - reference))))
    decreases count
  {
    hide ReadPose, Span, Player, PoseWith, Abs;
    if count == 0 {
      NoSpan(p.period);
    } else {
      var b := Slept(a, p.period);
      PlaysNext(p, joint, jaws, b);
      PoseKeys(p, joint, x);
      SpanStep(count, p.period);
      var (after, pose) := ReadPose(p, Player(p, joint, jaws), b);
      JawSamplesPlay(p, joint, jaws, after, reference, count - 1, x, Max(drift, Abs(x - reference)), x);
    }
  }

  /** What one pass comes to before it is judged. */
  lemma PassPlays(p: ArmProfile, g: GripperProfile, jaws: Jaws, grasp: bool, start: real, target: real, deadline: real,
                  l: Grip<Count>) returns (next: Grip<Count>)
    requires g.joint in p.Names() && l.arm.now <= deadline
    ensures next.arm.bus == Count(l.arm.bus.times + 1) && next.arm.now == l.arm.now + p.period
    ensures next.setpoint == Toward(l.setpoint, target, GripStep(p, g)) && next.position == jaws(l.arm.bus.times)
    ensures var moved := Progressed(p, next.position, l.reference);
            && next.reference == (if moved then next.position else l.reference)
            && next.progressAt == (if moved then next.arm.now else l.progressAt)
    ensures GripPass(p, g, Player(p, g.joint, jaws), grasp, start, target, deadline, l)
            == (next, JudgeGrip(p, g, grasp, start, target, next))
  {
    hide ReadPose, WriteGoals, Toward, GripStep, Progressed, JudgeGrip, PoseWith;
    var d, setpoint := Player(p, g.joint, jaws), Toward(l.setpoint, target, GripStep(p, g));
    ObeysNothing(p, g.joint, jaws, l.arm, ByMotion, map[g.joint := setpoint], true);
    var a1 := WriteGoals(d, l.arm, ByMotion, map[g.joint := setpoint]).0;
    PlaysNext(p, g.joint, jaws, Slept(a1, p.period));
    PoseKeys(p, g.joint, jaws(a1.bus.times));
    next := GripPass(p, g, d, grasp, start, target, deadline, l).0;
  }

  lemma PlayerIsReady(p: ArmProfile, g: GripperProfile, jaws: Jaws, grasp: bool, a: Arm<Count>)
    requires p.Valid() && p.gripper == Some(g) && p.Limit(g.joint).minRad <= jaws(a.bus.times) <= p.Limit(g.joint).maxRad
    requires grasp ==> OpenEnough(g, jaws(a.bus.times))
    ensures Prepare(p, Player(p, g.joint, jaws), a, MayStart(g, grasp))
            == (a.(bus := Count(a.bus.times + 1)), Ok(Ready(PoseWith(p, g.joint, jaws(a.bus.times)))))
  {
    hide ReadPose, ReadTorque, Player, OpenEnough;
    PlaysNext(p, g.joint, jaws, a);
    PoseKeys(p, g.joint, jaws(a.bus.times));
    TorqueReads(p, g.joint, jaws, a.(bus := Count(a.bus.times + 1)));
  }

  // ---------------------------------------------------------------------------
  // The longest release
  // ---------------------------------------------------------------------------

  /** A distance that is no arrival, alternating so that it is always progress. */
  function Away(p: ArmProfile, g: GripperProfile, n: nat): real {
    (g.tolerance + p.stallMinProgress) * (if n % 2 == 0 then 1.0 else 2.0)
  }

  lemma AwayMoves(p: ArmProfile, g: GripperProfile, n: nat)
    requires p.Valid() && 0.0 < g.tolerance
    ensures Away(p, g, n) > g.tolerance && Away(p, g, n) >= p.stallMinProgress
    ensures Abs(Away(p, g, n + 1) - Away(p, g, n)) >= p.stallMinProgress
  {
  }

  /** Jaws that start at the target, leave it, and are back with the last pass. */
  function Releasing(p: ArmProfile, g: GripperProfile, n: nat): real
    requires p.Valid()
  {
    g.releaseRad + if 1 <= n < MostPasses(p) then Away(p, g, n) else 0.0
  }

  function ReleaseJaws(p: ArmProfile, g: GripperProfile): Jaws
    requires p.Valid()
  {
    (n: nat) => Releasing(p, g, n)
  }

  /** After `i` passes of a release begun at `t`. */
  ghost predicate Released(p: ArmProfile, g: GripperProfile, t: real, i: nat, l: Grip<Count>)
    requires p.Valid()
  {
    && l.arm.bus == Count(i + 1) && l.arm.now == t + Span(i, p.period) && l.setpoint == g.releaseRad
    && l.reference == Releasing(p, g, i) && l.progressAt == l.arm.now
  }

  lemma ReleasePass(p: ArmProfile, g: GripperProfile, t: real, i: nat, l: Grip<Count>) returns (next: Grip<Count>)
    requires p.Valid() && p.gripper == Some(g) && i < MostPasses(p) && Released(p, g, t, i, l)
    ensures var (after, ending) := GripPass(p, g, Player(p, g.joint, ReleaseJaws(p, g)), false, g.releaseRad, g.releaseRad,
                                            t + p.moveDeadline, l);
            && after == next
            && (if i + 1 < MostPasses(p) then ending == None && Released(p, g, t, i + 1, next)
                else
                  && ending == Some(ReachedTarget) && next.arm.bus == Count(i + 2) && next.position == g.releaseRad
                  && next.arm.now == t + Span(i + 1, p.period))
  {
    hide GripPass, Player, Span, Away, Passes, GripStep;
    StillInTime(p, i);
    GripStepIsPositive(p, g);
    TowardItself(g.releaseRad, GripStep(p, g));
    SpanStep(i + 1, p.period);
    AwayMoves(p, g, i);
    AwayMoves(p, g, i + 1);
    next := PassPlays(p, g, ReleaseJaws(p, g), false, g.releaseRad, g.releaseRad, t + p.moveDeadline, l);
    assert next.position == Releasing(p, g, i + 1);
  }

  lemma {:induction false} ReleaseLoops(p: ArmProfile, g: GripperProfile, t: real, i: nat, l: Grip<Count>)
    returns (last: Grip<Count>)
    requires p.Valid() && p.gripper == Some(g) && i < MostPasses(p) && Released(p, g, t, i, l)
    ensures last.arm.bus == Count(MostPasses(p) + 1) && last.arm.now == t + Span(MostPasses(p), p.period)
    ensures last.position == g.releaseRad
    ensures GripLooped(p, g, Player(p, g.joint, ReleaseJaws(p, g)), false, g.releaseRad, g.releaseRad, t + p.moveDeadline, l)
            == (last, ReachedTarget)
    decreases MostPasses(p) - i
  {
    hide GripPass, Player, Span, MostPasses, Released;
    var next := ReleasePass(p, g, t, i, l);
    if i + 1 == MostPasses(p) {
      last := next;
    } else {
      last := ReleaseLoops(p, g, t, i + 1, next);
    }
  }

  lemma ReleaseTakesLongest(p: ArmProfile, g: GripperProfile, a: Arm<Count>)
    requires p.Valid() && p.gripper == Some(g) && a.bus == Count(0)
    ensures var (after, ran) := RunGrip(p, g, Player(p, g.joint, ReleaseJaws(p, g)), a, false, g.releaseRad);
            after.now == a.now + LongestGrip(p, g, false) && ran.Ok? && ran.value.outcome.Completed?
  {
    hide Prepare, GripLooped, SampledJaws, Player, Span, Passes, MayStart, PoseWith;
    var d, a1 := Player(p, g.joint, ReleaseJaws(p, g)), a.(bus := Count(1));
    assert ReleaseJaws(p, g)(0) == g.releaseRad;
    PlayerIsReady(p, g, ReleaseJaws(p, g), false, a);
    PoseKeys(p, g.joint, g.releaseRad);
    NoSpan(p.period);
    var l := Grip(a1, g.releaseRad, g.releaseRad, a1.now, g.releaseRad);
    assert Released(p, g, a.now, 0, l);
    var last := ReleaseLoops(p, g, a.now, 0, l);
    JawSamplesPlay(p, g.joint, ReleaseJaws(p, g), last.arm, g.releaseRad, g.holdSamples, g.releaseRad, 0.0, g.releaseRad);
  }

  // ---------------------------------------------------------------------------
  // The longest grasp
  // ---------------------------------------------------------------------------

  /** How many passes a stall window takes. */
  function WindowPasses(p: ArmProfile): (n: nat)
    requires p.Valid()
    ensures 1 <= n
  {
    var n := Ceiling(p.stallWindow / p.period);
    if n < 1 then 1 else n
  }

  lemma SpansCover(w: nat, v: nat, q: real, span: real, period: real)
    requires w == v + 1 && 0.0 < period && v as real < q <= w as real && q * period == span
    ensures Span(v, period) < span <= Span(w, period)
  {
    TimesGrows(v as real, q, period);
    if q < w as real {
      TimesGrows(q, w as real, period);
    }
  }

  lemma WindowIsCovered(p: ArmProfile)
    requires p.Valid()
    ensures Span(WindowPasses(p) - 1, p.period) < p.stallWindow <= Span(WindowPasses(p), p.period)
  {
    hide Span;
    var q := QuotientOf(p.stallWindow, p.period);
    assert 0.0 < q;
    var w := Ceiling(q);
    assert w == WindowPasses(p) && (w - 1) as real < q <= w as real;
    SpansCover(w, w - 1, q, p.stallWindow, p.period);
  }

  lemma WindowFits(p: ArmProfile)
    requires p.Valid() && LongestIsReached(p, true)
    ensures WindowPasses(p) < MostPasses(p)
    ensures Span(WindowPasses(p) - 1, p.period) < p.stallWindow <= Span(WindowPasses(p), p.period)
  {
    hide Span, WindowPasses, Passes;
    WindowIsCovered(p);
    if MostPasses(p) <= WindowPasses(p) {
      SpanGrows(MostPasses(p) - 1, WindowPasses(p) - 1, p.period);
    }
  }

  /** The last pass that notes progress: a stall window later the deadline's last pass
      is in contact. */
  function Frozen(p: ArmProfile): nat
    requires p.Valid()
  {
    if WindowPasses(p) < MostPasses(p) then MostPasses(p) - WindowPasses(p) else 0
  }

  /** How far the jaws are from where they started, outward: moving, frozen, and from
      the hold on slipping. */
  function Opened(p: ArmProfile, g: GripperProfile, n: nat): real
    requires p.Valid()
  {
    if n == 0 then 0.0
    else if n <= Frozen(p) then Away(p, g, n)
    else if n <= MostPasses(p) then Away(p, g, Frozen(p))
    else Away(p, g, Frozen(p)) + g.holdMaxDrift + 1.0
  }

  function Grasping(p: ArmProfile, g: GripperProfile, n: nat): real
    requires p.Valid()
  {
    g.openRad + g.Opening() * Opened(p, g, n)
  }

  function GraspJaws(p: ArmProfile, g: GripperProfile): Jaws
    requires p.Valid()
  {
    (n: nat) => Grasping(p, g, n)
  }

  /** The last pass up to the `i`-th that noted progress. */
  function LastNoted(p: ArmProfile, i: nat): nat
    requires p.Valid()
  {
    if i <= Frozen(p) then i else Frozen(p)
  }

  /** After `i` passes of a grasp begun at `t`. */
  ghost predicate Grasped(p: ArmProfile, g: GripperProfile, t: real, i: nat, l: Grip<Count>)
    requires p.Valid()
  {
    && l.arm.bus == Count(i + 1) && l.arm.now == t + Span(i, p.period)
    && l.setpoint == Along(g.openRad, g.closedRad, GripStep(p, g), i) && l.position == Grasping(p, g, i)
    && l.reference == Grasping(p, g, LastNoted(p, i)) && l.progressAt == t + Span(LastNoted(p, i), p.period)
  }

  /** Outward is away from the start, from closed and from every setpoint between. */
  lemma OutwardIsFar(g: GripperProfile, limit: JointLimit, setpoint: real, x: real, y: real)
    requires g.Valid(limit) && 0.0 <= x && 0.0 <= y
    requires g.openRad <= setpoint <= g.closedRad || g.closedRad <= setpoint <= g.openRad
    ensures var far := g.openRad + g.Opening() * x;
            && g.Gap(far) == g.Gap(g.openRad) + x && g.minGap + g.tolerance < g.Gap(g.openRad)
            && Abs(far - g.openRad) == x && Abs(setpoint - far) >= x && Abs(far - g.closedRad) > g.tolerance
            && Abs(far - (g.openRad + g.Opening() * y)) == Abs(x - y)
  {
    if g.openRad > g.closedRad {
      assert g.Opening() * x == x && g.Opening() * y == y;
    } else {
      assert g.Opening() * x == -x && g.Opening() * y == -y;
    }
  }

  lemma SetpointIsBetween(p: ArmProfile, g: GripperProfile, k: nat)
    requires 0.0 < GripStep(p, g)
    ensures var setpoint := Along(g.openRad, g.closedRad, GripStep(p, g), k);
            g.openRad <= setpoint <= g.closedRad || g.closedRad <= setpoint <= g.openRad
  {
    LineIsRateLimited(g.openRad, g.closedRad, GripStep(p, g), k);
  }

  lemma OpenedMoves(p: ArmProfile, g: GripperProfile, i: nat)
    requires p.Valid() && 0.0 < g.tolerance && 0.0 < g.holdMaxDrift && LongestIsReached(p, true) && i < MostPasses(p)
    ensures 1 <= Frozen(p) < MostPasses(p) && 0.0 <= Opened(p, g, i)
    ensures Opened(p, g, i + 1) > g.tolerance && Opened(p, g, i + 1) >= p.stallMinProgress
    ensures i < Frozen(p) ==> Abs(Opened(p, g, i + 1) - Opened(p, g, i)) >= p.stallMinProgress
    ensures Frozen(p) <= i ==> Opened(p, g, i + 1) == Opened(p, g, Frozen(p))
  {
    hide Away;
    WindowFits(p);
    AwayMoves(p, g, i);
    AwayMoves(p, g, i + 1);
    AwayMoves(p, g, Frozen(p));
  }

  /** Time since the last progress, in passes. */
  lemma SinceProgress(p: ArmProfile, i: nat)
    requires p.Valid() && LongestIsReached(p, true) && 1 <= i <= MostPasses(p)
    ensures Span(i, p.period) - Span(LastNoted(p, i), p.period) >= p.stallWindow <==> i == MostPasses(p)
  {
    hide Span;
    WindowFits(p);
    NoSpan(p.period);
    if Frozen(p) < i {
      SpansDiffer(Frozen(p), i - Frozen(p), p.period);
      if i < MostPasses(p) {
        SpanGrows(i - Frozen(p), WindowPasses(p) - 1, p.period);
      }
    }
  }

  lemma SpansDiffer(j: nat, k: nat, interval: real)
    ensures Span(j + k, interval) - Span(j, interval) == Span(k, interval)
  {
    assert (j + k) as real == j as real + k as real;
  }

  lemma GraspPass(p: ArmProfile, g: GripperProfile, t: real, i: nat, l: Grip<Count>) returns (next: Grip<Count>)
    requires p.Valid() && p.gripper == Some(g) && LongestIsReached(p, true) && i < MostPasses(p) && Grasped(p, g, t, i, l)
    ensures Grasped(p, g, t, i + 1, next)
    ensures GripPass(p, g, Player(p, g.joint, GraspJaws(p, g)), true, g.openRad, g.closedRad, t + p.moveDeadline, l)
            == (next, JudgeGrip(p, g, true, g.openRad, g.closedRad, next))
  {
    hide GripPass, Player, Span, Away, Passes, GripStep, JudgeGrip, Along, Toward, Frozen, Opened;
    StillInTime(p, i);
    GripStepIsPositive(p, g);
    StepFollowsLine(g.openRad, g.closedRad, GripStep(p, g), i);
    SpanStep(i + 1, p.period);
    OpenedMoves(p, g, i);
    next := PassPlays(p, g, GraspJaws(p, g), true, g.openRad, g.closedRad, t + p.moveDeadline, l);
    assert next.position == Grasping(p, g, i + 1);
    NotedMoves(p, g, i);
  }

  /** Progress is noted exactly up to the pass the jaws freeze at. */
  lemma NotedMoves(p: ArmProfile, g: GripperProfile, i: nat)
    requires p.Valid() && p.gripper == Some(g) && LongestIsReached(p, true) && i < MostPasses(p)
    ensures Progressed(p, Grasping(p, g, i + 1), Grasping(p, g, LastNoted(p, i))) <==> LastNoted(p, i + 1) == i + 1
    ensures LastNoted(p, i + 1) != i + 1 ==> LastNoted(p, i + 1) == LastNoted(p, i)
    ensures 1 <= i ==> LastNoted(p, i) >= 1
  {
    hide Away, Frozen, Opened;
    OpenedMoves(p, g, i);
    var limit := p.Limit(g.joint);
    OutwardIsFar(g, limit, g.openRad, Opened(p, g, i + 1), Opened(p, g, i));
    if Frozen(p) <= i {
      OpenedMoves(p, g, Frozen(p));
      assert Opened(p, g, i + 1) == Opened(p, g, Frozen(p));
    }
  }

  lemma GraspJudged(p: ArmProfile, g: GripperProfile, t: real, i: nat, l: Grip<Count>)
    requires p.Valid() && p.gripper == Some(g) && LongestIsReached(p, true) && 1 <= i <= MostPasses(p) && Grasped(p, g, t, i, l)
    ensures JudgeGrip(p, g, true, g.openRad, g.closedRad, l) == if i < MostPasses(p) then None else Some(Contact)
  {
    hide Away, Frozen, Opened, LastNoted, Span, Along, GripStep;
    GripStepIsPositive(p, g);
    OpenedMoves(p, g, i - 1);
    SetpointIsBetween(p, g, i);
    OutwardIsFar(g, p.Limit(g.joint), l.setpoint, Opened(p, g, i), 0.0);
    SinceProgress(p, i);
  }

  lemma {:induction false} GraspLoops(p: ArmProfile, g: GripperProfile, t: real, i: nat, l: Grip<Count>)
    returns (last: Grip<Count>)
    requires p.Valid() && p.gripper == Some(g) && LongestIsReached(p, true) && i < MostPasses(p) && Grasped(p, g, t, i, l)
    ensures Grasped(p, g, t, MostPasses(p), last)
    ensures GripLooped(p, g, Player(p, g.joint, GraspJaws(p, g)), true, g.openRad, g.closedRad, t + p.moveDeadline, l)
            == (last, Contact)
    decreases MostPasses(p) - i
  {
    hide GripPass, Player, Span, MostPasses, Grasped, LongestIsReached, JudgeGrip;
    var next := GraspPass(p, g, t, i, l);
    GraspJudged(p, g, t, i + 1, next);
    if i + 1 == MostPasses(p) {
      last := next;
    } else {
      last := GraspLoops(p, g, t, i + 1, next);
    }
  }

  /** What the hold sees slips. */
  lemma HoldSlips(p: ArmProfile, g: GripperProfile, n: nat)
    requires p.Valid() && p.gripper == Some(g) && MostPasses(p) < n && LongestIsReached(p, true)
    ensures Grasping(p, g, n) == Grasping(p, g, MostPasses(p) + 1)
    ensures Abs(Grasping(p, g, MostPasses(p) + 1) - Grasping(p, g, MostPasses(p))) > g.holdMaxDrift
  {
    hide Away;
    var m := MostPasses(p);
    OpenedMoves(p, g, m - 1);
    assert Opened(p, g, m + 1) == Opened(p, g, m) + g.holdMaxDrift + 1.0;
    OutwardIsFar(g, p.Limit(g.joint), g.openRad, Opened(p, g, m + 1), Opened(p, g, m));
  }

  lemma SlippedStops(p: ArmProfile, g: GripperProfile, a: Arm<Count>)
    requires p.Valid() && p.gripper == Some(g) && LongestIsReached(p, true) && a.bus == Count(MostPasses(p) + 1)
    ensures var d, contact := Player(p, g.joint, GraspJaws(p, g)), Grasping(p, g, MostPasses(p));
            var (after, ran) := ConfirmHold(p, g, d, a, g.openRad, contact);
            && after.now == a.now + Span(g.holdSamples, p.period) + StopTime(p)
            && ran.Ok? && ran.value.reason.Slipping?
  {
    hide SampledJaws, Stop, Player, Span, Grasping, StopTime, MostPasses;
    var jaws, contact, x := GraspJaws(p, g), Grasping(p, g, MostPasses(p)), Grasping(p, g, MostPasses(p) + 1);
    forall n: nat | a.bus.times <= n
      ensures jaws(n) == x
    {
      HoldSlips(p, g, n);
    }
    HoldSlips(p, g, MostPasses(p) + 1);
    JawSamplesPlay(p, g.joint, jaws, a, contact, g.holdSamples, contact, 0.0, x);
    StopPlays(p, g.joint, jaws, SampledJaws(p, g.joint, Player(p, g.joint, jaws), a, contact, g.holdSamples, contact, 0.0).0);
  }

  lemma OpenIsEnough(p: ArmProfile, g: GripperProfile)
    requires p.Valid() && p.gripper == Some(g)
    ensures OpenEnough(g, g.openRad) && p.Limit(g.joint).minRad <= g.openRad <= p.Limit(g.joint).maxRad
    ensures p.Limit(g.joint).minRad <= g.releaseRad <= p.Limit(g.joint).maxRad
    ensures Grasping(p, g, 0) == g.openRad
  {
    assert g.Opening() * 0.0 == 0.0;
  }

  lemma GraspTakesLongest(p: ArmProfile, g: GripperProfile, a: Arm<Count>)
    requires p.Valid() && p.gripper == Some(g) && LongestIsReached(p, true) && a.bus == Count(0)
    ensures var (after, ran) := RunGrip(p, g, Player(p, g.joint, GraspJaws(p, g)), a, true, g.closedRad);
            after.now == a.now + LongestGrip(p, g, true) && ran.Ok? && ran.value.reason.Slipping?
  {
    hide Prepare, GripLooped, ConfirmHold, Player, Span, Passes, MayStart, PoseWith, Grasping, OpenEnough, StopTime, Along,
      LongestIsReached;
    var a1 := a.(bus := Count(1));
    OpenIsEnough(p, g);
    PlayerIsReady(p, g, GraspJaws(p, g), true, a);
    PoseKeys(p, g.joint, g.openRad);
    NoSpan(p.period);
    GripStepIsPositive(p, g);
    StepFollowsLine(g.openRad, g.closedRad, GripStep(p, g), 0);
    var l := Grip(a1, g.openRad, g.openRad, a1.now, g.openRad);
    assert Grasped(p, g, a.now, 0, l);
    var last := GraspLoops(p, g, a.now, 0, l);
    SlippedStops(p, g, last.arm);
  }

  // ---------------------------------------------------------------------------
  // Whole calls
  // ---------------------------------------------------------------------------

  function JawsOf(p: ArmProfile, g: GripperProfile, grasp: bool): Jaws
    requires p.Valid()
  {
    if grasp then GraspJaws(p, g) else ReleaseJaws(p, g)
  }

  /** A grasp, or a release to the release position. */
  function GripRequest(g: GripperProfile, grasp: bool): Request {
    if grasp then Request("", Grasps, map[]) else Request("", Releases, map[RELEASE_ARGUMENT := Number(g.releaseRad)])
  }

  /** The longest grip there can be does happen. */
  lemma LongestGripHappens(p: ArmProfile, g: GripperProfile, grasp: bool, a: Arm<Count>)
    requires p.Valid() && p.limitsAccepted && p.gripper == Some(g) && LongestIsReached(p, grasp)
    requires a.bus == Count(0) && !a.stopUnconfirmed && !a.stateUnknown
    ensures var (after, result) := Grips(p, Player(p, g.joint, JawsOf(p, g, grasp)), a, GripRequest(g, grasp));
            && after.now - a.now == LongestGrip(p, g, grasp)
            && (if grasp then result.reason.Slipping? else result.outcome.Completed?)
  {
    hide RunGrip, Player, LongestGrip, LongestIsReached;
    if grasp {
      GraspTakesLongest(p, g, a);
    } else {
      ReleaseTakesLongest(p, g, a);
    }
  }

  /** Every grasp, or every release, on every bus ends within its row's time if and
      only if the row covers the longest one that can happen. */
  lemma GripsEndInTimeExactlyWhen(p: ArmProfile, g: GripperProfile, grasp: bool)
    requires p.Valid() && p.limitsAccepted && p.gripper == Some(g)
    ensures (forall d: Driver<Count>, a, request: Request :: request.capability.Grasps? == grasp ==> GripInTime(p, d, a, request))
            <==> RowCoversGrip(p, g, grasp)
  {
    hide GripInTime, RowCoversGrip;
    if RowCoversGrip(p, g, grasp) {
      forall d: Driver<Count>, a, request: Request | request.capability.Grasps? == grasp
        ensures GripInTime(p, d, a, request)
      {
        GripEndsInTime(p, d, a, request);
      }
    } else {
      GripOverruns(p, g, grasp);
    }
  }

  lemma GripOverruns(p: ArmProfile, g: GripperProfile, grasp: bool)
    requires p.Valid() && p.limitsAccepted && p.gripper == Some(g) && !RowCoversGrip(p, g, grasp)
    ensures GripRequest(g, grasp).capability.Grasps? == grasp
    ensures !GripInTime(p, Player(p, g.joint, JawsOf(p, g, grasp)), Arm(Count(0), 0.0, false, false, []), GripRequest(g, grasp))
  {
    hide Grips, Player, LongestGrip, LongestIsReached, GripTimeout;
    LongestGripHappens(p, g, grasp, Arm(Count(0), 0.0, false, false, []));
  }

  /** A profile with a period of ten seconds, whose gripper is its one joint. */
  function SlowGripProfile(): ArmProfile {
    OneJoint("jaws").(period := 10.0)
  }

  /** Its row covers neither a grasp nor a release. */
  lemma SlowGripsOverrun(grasp: bool)
    ensures var p, g := SlowGripProfile(), OneGripper("jaws");
            && p.Valid() && p.limitsAccepted && p.gripper == Some(g)
            && !GripInTime(p, Player(p, g.joint, JawsOf(p, g, grasp)), Arm(Count(0), 0.0, false, false, []),
                           GripRequest(g, grasp))
  {
    hide SlowGripProfile, OneGripper, RowCoversGrip, GripInTime, Player, JawsOf;
    SlowGripIsValid();
    SlowGripIsNotCovered(grasp);
    GripOverruns(SlowGripProfile(), OneGripper("jaws"), grasp);
  }

  lemma SlowGripIsValid()
    ensures var p := SlowGripProfile(); p.Valid() && p.limitsAccepted && p.gripper == Some(OneGripper("jaws"))
  {
    OneJointIsValid("jaws");
    AnyPeriodIsValid(OneJoint("jaws"), 10.0);
  }

  /** The parser asks of a period only that it be positive. */
  lemma AnyPeriodIsValid(p: ArmProfile, period: real)
    requires p.Valid() && 0.0 < period
    ensures p.(period := period).Valid()
  {
    var q := p.(period := period);
    assert q.Names() == p.Names();
    if p.gripper.Some? {
      assert q.Limit(p.gripper.value.joint) == p.Limit(p.gripper.value.joint);
    }
  }

  lemma SlowGripIsNotCovered(grasp: bool)
    requires SlowGripProfile().Valid()
    ensures !RowCoversGrip(SlowGripProfile(), OneGripper("jaws"), grasp)
  {
    var p, g := SlowGripProfile(), OneGripper("jaws");
    assert Passes(10.0, 10.0) == 1;
    assert Span(MostPasses(p), p.period) == 20.0 && Span(MostPasses(p) - 1, p.period) == 10.0;
    assert Span(g.holdSamples, p.period) == 10.0;
    assert GripBudget(p, g) == 20.1;
    assert Milliseconds(20.1) == 22100;
  }
}
