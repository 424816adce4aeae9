/** When a call ends, with only its sleeps taking time: within the budget its row
    publishes, on every exit (flyto_robotics/arm_adapter.py,
    flyto_robotics/arm_contracts.py). */
module ArmTiming {
  import opened Wrappers
  import opened ArmProfile
  import opened ArmBus
  import opened ArmMotion
  import opened ArmGrip
  import opened ArmCalls
  import opened ArmContracts

  /** The later arm is at most this much later. */
  predicate Takes<S>(a: Arm<S>, b: Arm<S>, most: real) {
    a.now <= b.now <= a.now + most
  }

  function Span(count: nat, interval: real): real {
    count as real * interval
  }

  lemma SpanStep(count: nat, interval: real)
    requires 0 < count && 0.0 <= interval
    ensures Span(count, interval) == Span(count - 1, interval) + interval && interval <= Span(count, interval)
  {
    assert count as real == (count - 1) as real + 1.0;
    SpanIsNonNegative(count - 1, interval);
  }

  lemma SpanIsNonNegative(count: nat, interval: real)
    requires 0.0 <= interval
    ensures 0.0 <= Span(count, interval)
  {
  }

  lemma BudgetsAreSpans(p: ArmProfile)
    requires p.Valid()
    ensures StopBudget(p) == Span(p.stopSamples, p.stopPeriod) && 0.0 <= StopBudget(p)
    ensures MoveBudget(p) == p.moveDeadline + Span(p.settleSamples, p.period) + StopBudget(p)
  {
    SpanIsNonNegative(p.stopSamples, p.stopPeriod);
  }

  lemma GripBudgetIsSpans(p: ArmProfile, g: GripperProfile)
    ensures GripBudget(p, g) == p.moveDeadline + Span(g.holdSamples, p.period) + StopBudget(p)
  {
  }

  // ---------------------------------------------------------------------------
  // Reads and writes take no time
  // ---------------------------------------------------------------------------

  lemma BusTakesNoTime<S>(p: ArmProfile, d: Driver<S>, a: Arm<S>)
    ensures ReadPose(p, d, a).0.now == a.now && ReadTorque(p, d, a).0.now == a.now
    ensures forall origin, goals :: WriteGoals(d, a, origin, goals).0.now == a.now
    ensures forall origin, on :: SetTorque(d, a, origin, on).0.now == a.now
  {
  }

  lemma {:induction false} SamplingTakes<S>(p: ArmProfile, d: Driver<S>, a: Arm<S>, reference: Pose, count: nat, interval: real,
                                            last: Pose, drift: real)
    requires reference.Keys == p.Names() && last.Keys == p.Names() && 0.0 <= interval
    ensures Takes(a, Sampled(p, d, a, reference, count, interval, last, drift).0, Span(count, interval))
    decreases count
  {
    hide Span, ReadPose;
    SpanIsNonNegative(count, interval);
    if count > 0 {
      SpanStep(count, interval);
      SpanIsNonNegative(count - 1, interval);
      BusTakesNoTime(p, d, Slept(a, interval));
      var (after, pose) := ReadPose(p, d, Slept(a, interval));
      if pose.Ok? {
        SamplingTakes(p, d, after, reference, count - 1, interval, pose.value,
                      MaxDrift(p.joints, pose.value, reference, drift));
      }
    }
  }

  lemma {:induction false} SamplingJawsTakes<S>(p: ArmProfile, joint: string, d: Driver<S>, a: Arm<S>, reference: real,
                                                count: nat, last: real, drift: real)
    requires joint in p.Names() && 0.0 <= p.period
    ensures Takes(a, SampledJaws(p, joint, d, a, reference, count, last, drift).0, Span(count, p.period))
    decreases count
  {
    hide Span, ReadPose;
    SpanIsNonNegative(count, p.period);
    if count > 0 {
      SpanStep(count, p.period);
      SpanIsNonNegative(count - 1, p.period);
      BusTakesNoTime(p, d, Slept(a, p.period));
      var (after, pose) := ReadPose(p, d, Slept(a, p.period));
      if pose.Ok? {
        var position := pose.value[joint];
        SamplingJawsTakes(p, joint, d, after, reference, count - 1, position, Max(drift, Abs(position - reference)));
      }
    }
  }

  // ---------------------------------------------------------------------------
  // A stop
  // ---------------------------------------------------------------------------

  lemma HoldTakes<S>(p: ArmProfile, d: Driver<S>, a: Arm<S>)
    requires p.Valid()
    ensures Takes(a, Hold(p, d, a).0, StopBudget(p))
  {
    hide ReadPose, ReadTorque, WriteGoals, SetTorque, Sampled, AllOn, HoldObservations, Span;
    BudgetsAreSpans(p);
    var (a1, held) := ReadPose(p, d, a);
    BusTakesNoTime(p, d, a);
    if held.Ok? {
      var a2 := WriteGoals(d, a1, ByStop, held.value).0;
      BusTakesNoTime(p, d, a1);
      var a3 := SetTorque(d, a2, ByStop, true).0;
      BusTakesNoTime(p, d, a2);
      var a4 := ReadTorque(p, d, a3).0;
      BusTakesNoTime(p, d, a3);
      SamplingTakes(p, d, a4, held.value, p.stopSamples, p.stopPeriod, held.value, 0.0);
    }
  }

  /** The most a stop sleeps: turning torque off does not. */
  function StopTime(p: ArmProfile): real {
    if p.stopMode.StopHold? then StopBudget(p) else 0.0
  }

  lemma StopTakes<S>(p: ArmProfile, d: Driver<S>, a: Arm<S>)
    requires p.Valid()
    ensures Takes(a, Stop(p, d, a).0, StopTime(p)) && 0.0 <= StopTime(p) <= StopBudget(p)
  {
    hide Hold;
    HoldTakes(p, d, a);
    SpanIsNonNegative(p.stopSamples, p.stopPeriod);
    BusTakesNoTime(p, d, a);
    BusTakesNoTime(p, d, SetTorque(d, a, ByStop, false).0);
  }

  // ---------------------------------------------------------------------------
  // The setpoint loops
  // ---------------------------------------------------------------------------

  lemma PassTakes<S>(p: ArmProfile, d: Driver<S>, targets: Pose, deadline: real, l: Loop<S>)
    requires l.Covers(p.Names()) && targets.Keys == p.Names() && 0.0 < p.period
    ensures Takes(l.arm, Pass(p, d, targets, deadline, l).0.arm, if l.arm.now > deadline then 0.0 else p.period)
  {
    hide Judge, Noted, Advanced, WriteGoals, ReadPose;
    var goals := Advanced(l.setpoint, targets, MoveStep(p));
    BusTakesNoTime(p, d, l.arm);
    BusTakesNoTime(p, d, Slept(WriteGoals(d, l.arm, ByMotion, goals).0, p.period));
  }

  /** The loop is left at most one period after its deadline. */
  lemma {:induction false} LoopTakes<S>(p: ArmProfile, d: Driver<S>, targets: Pose, deadline: real, l: Loop<S>)
    requires l.Covers(p.Names()) && targets.Keys == p.Names() && 0.0 < p.period && l.arm.now <= deadline + p.period
    ensures l.arm.now <= Looped(p, d, targets, deadline, l).0.arm.now <= deadline + p.period
    decreases PassesLeft(l.arm.now, deadline, p.period)
  {
    hide Pass;
    var (next, ending) := Pass(p, d, targets, deadline, l);
    PassTakes(p, d, targets, deadline, l);
    if ending.None? {
      OnePassLess(l.arm.now, deadline, p.period);
      LoopTakes(p, d, targets, deadline, next);
    }
  }

  lemma GripPassTakes<S>(p: ArmProfile, g: GripperProfile, d: Driver<S>, grasp: bool, start: real, target: real,
                         deadline: real, l: Grip<S>)
    requires g.joint in p.Names() && 0.0 < p.period
    ensures Takes(l.arm, GripPass(p, g, d, grasp, start, target, deadline, l).0.arm,
                  if l.arm.now > deadline then 0.0 else p.period)
  {
    hide JudgeGrip, Progressed, WriteGoals, ReadPose, Toward, GripStep;
    var goals := map[g.joint := Toward(l.setpoint, target, GripStep(p, g))];
    BusTakesNoTime(p, d, l.arm);
    BusTakesNoTime(p, d, Slept(WriteGoals(d, l.arm, ByMotion, goals).0, p.period));
  }

  lemma {:induction false} GripLoopTakes<S>(p: ArmProfile, g: GripperProfile, d: Driver<S>, grasp: bool, start: real,
                                            target: real, deadline: real, l: Grip<S>)
    requires g.joint in p.Names() && 0.0 < p.period && l.arm.now <= deadline + p.period
    ensures l.arm.now <= GripLooped(p, g, d, grasp, start, target, deadline, l).0.arm.now <= deadline + p.period
    decreases PassesLeft(l.arm.now, deadline, p.period)
  {
    hide GripPass;
    var (next, ending) := GripPass(p, g, d, grasp, start, target, deadline, l);
    GripPassTakes(p, g, d, grasp, start, target, deadline, l);
    if ending.None? {
      OnePassLess(l.arm.now, deadline, p.period);
      GripLoopTakes(p, g, d, grasp, start, target, deadline, next);
    }
  }

  // ---------------------------------------------------------------------------
  // Whole motions
  // ---------------------------------------------------------------------------

  lemma EnablingTakesNoTime<S>(p: ArmProfile, d: Driver<S>, a: Arm<S>, before: Pose)
    ensures EnableTorque(p, d, a, before).0.now == a.now
  {
    hide ReadTorque, WriteGoals, SetTorque, AllOn;
    BusTakesNoTime(p, d, a);
    var a1 := ReadTorque(p, d, a).0;
    BusTakesNoTime(p, d, a1);
    var a2 := WriteGoals(d, a1, ByMotion, before).0;
    BusTakesNoTime(p, d, a2);
    BusTakesNoTime(p, d, SetTorque(d, a2, ByMotion, true).0);
  }

  lemma PreparingTakesNoTime<S>(p: ArmProfile, d: Driver<S>, a: Arm<S>, fromHere: Pose -> bool)
    ensures Prepare(p, d, a, fromHere).0.now == a.now
  {
    hide ReadPose, EnableTorque;
    BusTakesNoTime(p, d, a);
    var (a1, before) := ReadPose(p, d, a);
    if before.Ok? {
      EnablingTakesNoTime(p, d, a1, before.value);
    }
  }

  /** What follows a move's loop: the settling after an arrival, a stop otherwise. */
  lemma EndMoveTakes<S>(p: ArmProfile, d: Driver<S>, before: Pose, l: Loop<S>, ending: Ending)
    requires p.Valid() && l.Covers(p.Names())
    ensures Takes(l.arm, EndMove(p, d, before, l, ending).0,
                  if ending.Arrived? then Span(p.settleSamples, p.period) else StopBudget(p))
  {
    hide Stop, Sampled, StopBudget, Span;
    StopTakes(p, d, l.arm);
    SamplingTakes(p, d, l.arm, l.positions, p.settleSamples, p.period, l.positions, 0.0);
  }

  /** However the deadline falls between passes: the loop takes at most the passes
      that may start by it. */
  lemma {:induction false} LoopTakesPasses<S>(p: ArmProfile, d: Driver<S>, targets: Pose, deadline: real, l: Loop<S>)
    requires l.Covers(p.Names()) && targets.Keys == p.Names() && 0.0 < p.period
    ensures var last := Looped(p, d, targets, deadline, l).0;
            l.arm.now <= last.arm.now <= l.arm.now + Span(PassesLeft(l.arm.now, deadline, p.period), p.period)
    decreases PassesLeft(l.arm.now, deadline, p.period)
  {
    hide Pass, Span, Passes;
    var (next, ending) := Pass(p, d, targets, deadline, l);
    PassTakes(p, d, targets, deadline, l);
    var left := PassesLeft(l.arm.now, deadline, p.period);
    SpanIsNonNegative(left, p.period);
    if l.arm.now <= deadline {
      SpanStep(left, p.period);
    }
    if ending.None? {
      OnePassLess(l.arm.now, deadline, p.period);
      LoopTakesPasses(p, d, targets, deadline, next);
      SpanGrows(PassesLeft(next.arm.now, deadline, p.period), left - 1, p.period);
    }
  }

  lemma SpanGrows(m: nat, n: nat, interval: real)
    requires m <= n && 0.0 <= interval
    ensures Span(m, interval) <= Span(n, interval)
  {
  }

  /** The most passes a move's loop makes. */
  function MostPasses(p: ArmProfile): nat
    requires 0.0 < p.period && 0.0 <= p.moveDeadline
  {
    1 + Passes(p.moveDeadline, p.period)
  }

  lemma PassesFit(span: real, period: real)
    requires 0.0 < period && 0.0 <= span
    ensures Span(Passes(span, period), period) <= span < Span(Passes(span, period) + 1, period)
  {
    var q := QuotientOf(span, period);
    var n := Passes(span, period);
    assert n as real <= q < n as real + 1.0;
    assert (n + 1) as real == n as real + 1.0;
    SpansAround(n, n + 1, q, period);
  }

  lemma SpansAround(m: nat, n: nat, q: real, period: real)
    requires m as real <= q < n as real && 0.0 < period
    ensures Span(m, period) <= q * period < Span(n, period)
  {
    FloorTimes(m as real, q, period);
    assert (n as real - q) * period > 0.0;
  }

  lemma FloorTimes(below: real, q: real, period: real)
    requires below <= q && 0.0 < period
    ensures below * period <= q * period
  {
  }

  /** The longest a move can take: every pass the deadline allows, the last of them
      arriving, then the settling. */
  function LongestMove(p: ArmProfile): real
    requires 0.0 < p.period && 0.0 <= p.moveDeadline
  {
    Span(MostPasses(p), p.period) + Span(p.settleSamples, p.period)
  }

  /** Every pass and a stop are within the budget: it counts the settling too, which
      is at least one period. */
  lemma MoveBudgetCovers(p: ArmProfile)
    requires p.Valid()
    ensures 0.0 <= Span(MostPasses(p), p.period) && 0.0 <= Span(p.settleSamples, p.period)
    ensures Span(MostPasses(p), p.period) + StopBudget(p) <= MoveBudget(p)
    ensures 0.0 <= StopBudget(p) && LongestMove(p) == Span(MostPasses(p), p.period) + Span(p.settleSamples, p.period)
  {
    hide Span, Passes, StopBudget;
    BudgetsAreSpans(p);
    PassesFit(p.moveDeadline, p.period);
    SpanStep(MostPasses(p), p.period);
    SpanStep(p.settleSamples, p.period);
    SpanIsNonNegative(MostPasses(p), p.period);
  }

  lemma StartCovers<S>(p: ArmProfile, a: Arm<S>, before: Pose)
    requires before.Keys == p.Names()
    ensures StartLoop(a, before).Covers(p.Names()) && StartLoop(a, before).arm == a
  {
  }

  lemma LoopThenEndTakes<S>(p: ArmProfile, d: Driver<S>, a: Arm<S>, before: Pose, targets: Pose)
    requires p.Valid() && before.Keys == targets.Keys == p.Names() && StartLoop(a, before).Covers(p.Names())
    ensures var (last, ending) := Looped(p, d, targets, a.now + p.moveDeadline, StartLoop(a, before));
            Takes(a, EndMove(p, d, before, last, ending).0, Max(LongestMove(p), MoveBudget(p)))
  {
    hide Looped, EndMove, StopBudget, Span, Passes, MoveBudget, LongestMove, StartLoop;
    MoveBudgetCovers(p);
    var deadline := a.now + p.moveDeadline;
    var l := StartLoop(a, before);
    StartCovers(p, a, before);
    LoopTakesPasses(p, d, targets, deadline, l);
    assert PassesLeft(a.now, deadline, p.period) == MostPasses(p) by { assert deadline - a.now == p.moveDeadline; }
    var (last, ending) := Looped(p, d, targets, deadline, l);
    EndMoveTakes(p, d, before, last, ending);
  }

  /** A move takes no longer than that, or it ends in a stop and is within its budget
      whatever the period: the budget counts the settling and the stop, and only one
      of them follows the loop. */
  lemma MoveTakesPasses<S>(p: ArmProfile, d: Driver<S>, a: Arm<S>, targets: Pose)
    requires p.Valid() && targets.Keys == p.Names()
    ensures Takes(a, RunMove(p, d, a, targets).0, Max(LongestMove(p), MoveBudget(p)))
  {
    hide Prepare, Looped, EndMove, MoveBudget, LongestMove, StartLoop;
    var (a1, ready) := Prepare(p, d, a, Anywhere());
    PreparingTakesNoTime(p, d, a, Anywhere());
    BudgetIsPositive(p);
    if ready.Ok? && ready.value.Ready? {
      StartCovers(p, a1, ready.value.before);
      LoopThenEndTakes(p, d, a1, ready.value.before, targets);
    }
  }

  /** A budget in milliseconds leaves two seconds over. */
  lemma RowAllows(seconds: real, budget: real)
    requires seconds <= budget + 2.0
    ensures seconds * 1000.0 <= Milliseconds(budget) as real
  {
  }

  /** The row's time for a move covers this call. */
  predicate MoveInTime<S>(p: ArmProfile, d: Driver<S>, a: Arm<S>, request: Request)
    requires 0.0 < p.period
  {
    (Move(p, d, a, request).0.now - a.now) * 1000.0 <= Milliseconds(MoveBudget(p)) as real
  }

  /** The row's time covers the longest move: a condition on the profile alone. */
  predicate RowCoversLongest(p: ArmProfile)
    requires 0.0 < p.period && 0.0 <= p.moveDeadline
  {
    LongestMove(p) * 1000.0 <= Milliseconds(MoveBudget(p)) as real
  }

  /** Then a move ends within its row's time on every exit. */
  lemma MoveEndsInTime<S>(p: ArmProfile, d: Driver<S>, a: Arm<S>, request: Request)
    requires p.Valid() && RowCoversLongest(p)
    ensures a.now <= Move(p, d, a, request).0.now && MoveInTime(p, d, a, request)
  {
    hide RunMove, Targets, Milliseconds, StopBudget, Span, MoveBudget, LongestMove;
    var targets := Targets(p, request.arguments);
    BudgetIsPositive(p);
    RowAllows(MoveBudget(p), MoveBudget(p));
    if targets.Some? {
      MoveTakesPasses(p, d, a, targets.value);
    }
  }

  lemma BudgetIsPositive(p: ArmProfile)
    requires p.Valid()
    ensures 0.0 <= MoveBudget(p)
  {
    BudgetsAreSpans(p);
    SpanIsNonNegative(p.settleSamples, p.period);
  }

  /** A period of at most two seconds and the time of a stop is short enough. */
  lemma ShortPeriodIsCovered(p: ArmProfile)
    requires p.Valid() && p.period <= 2.0 + StopBudget(p)
    ensures RowCoversLongest(p)
  {
    hide Milliseconds, StopBudget, Span, Passes;
    BudgetsAreSpans(p);
    PassesFit(p.moveDeadline, p.period);
    SpanStep(MostPasses(p), p.period);
    RowAllows(LongestMove(p), MoveBudget(p));
  }

  /** Progress that moved the reference from where the grip started was noted a pass
      or more after the loop was entered. */
  ghost predicate NotesAfter<S>(began: real, start: real, period: real, l: Grip<S>) {
    l.reference == start || began + period <= l.progressAt
  }

  /** Jaws in contact are away from the start, which only noted progress can explain. */
  lemma GripPassNotes<S>(p: ArmProfile, g: GripperProfile, d: Driver<S>, grasp: bool, start: real, target: real,
                         deadline: real, began: real, l: Grip<S>)
    requires g.joint in p.Names() && 0.0 < p.period && 0.0 < p.stallWindow && began <= l.arm.now
    requires NotesAfter(began, start, p.period, l)
    ensures var (next, ending) := GripPass(p, g, d, grasp, start, target, deadline, l);
            && NotesAfter(began, start, p.period, next)
            && (ending == Some(Contact) ==> grasp && began + p.period + p.stallWindow <= next.arm.now)
  {
    hide WriteGoals, ReadPose, Toward, GripStep;
    var goals := map[g.joint := Toward(l.setpoint, target, GripStep(p, g))];
    BusTakesNoTime(p, d, l.arm);
    BusTakesNoTime(p, d, Slept(WriteGoals(d, l.arm, ByMotion, goals).0, p.period));
  }

  /** The loop of a grip takes at most the passes the deadline allows, and ends in
      contact at the earliest a pass and a stall window after it began. */
  lemma {:induction false} GripLoopTakesPasses<S>(p: ArmProfile, g: GripperProfile, d: Driver<S>, grasp: bool, start: real,
                                                  target: real, deadline: real, began: real, l: Grip<S>)
    requires g.joint in p.Names() && 0.0 < p.period && 0.0 < p.stallWindow && began <= l.arm.now
    requires NotesAfter(began, start, p.period, l)
    ensures var (last, ending) := GripLooped(p, g, d, grasp, start, target, deadline, l);
            && l.arm.now <= last.arm.now <= l.arm.now + Span(PassesLeft(l.arm.now, deadline, p.period), p.period)
            && (ending.Contact? ==> grasp && began + p.period + p.stallWindow <= last.arm.now)
    decreases PassesLeft(l.arm.now, deadline, p.period)
  {
    hide GripPass, Span, Passes, NotesAfter;
    var (next, ending) := GripPass(p, g, d, grasp, start, target, deadline, l);
    GripPassTakes(p, g, d, grasp, start, target, deadline, l);
    GripPassNotes(p, g, d, grasp, start, target, deadline, began, l);
    var left := PassesLeft(l.arm.now, deadline, p.period);
    SpanIsNonNegative(left, p.period);
    if l.arm.now <= deadline {
      SpanStep(left, p.period);
    }
    if ending.None? {
      OnePassLess(l.arm.now, deadline, p.period);
      GripLoopTakesPasses(p, g, d, grasp, start, target, deadline, began, next);
      SpanGrows(PassesLeft(next.arm.now, deadline, p.period), left - 1, p.period);
    }
  }

  /** What follows a grip's loop: samples after an opening, samples and, when the
      object slips, a stop after contact, nothing after an empty grasp, else a stop. */
  function AfterGrip(p: ArmProfile, g: GripperProfile, grasp: bool, ending: GripEnding): real {
    match ending
    case Contact => Span(g.holdSamples, p.period) + StopTime(p)
    case ReachedTarget => if grasp then 0.0 else Span(g.holdSamples, p.period)
    case _ => StopTime(p)
  }

  lemma EndGripTakes<S>(p: ArmProfile, g: GripperProfile, d: Driver<S>, grasp: bool, start: real, target: real, l: Grip<S>,
                        ending: GripEnding)
    requires p.Valid() && g.joint in p.Names()
    ensures Takes(l.arm, EndGrip(p, g, d, grasp, start, target, l, ending).0, AfterGrip(p, g, grasp, ending))
  {
    hide Stop, SampledJaws, StopTime, StopBudget, Span;
    StopTakes(p, d, l.arm);
    SpanIsNonNegative(g.holdSamples, p.period);
    SamplingJawsTakes(p, g.joint, d, l.arm, l.position, g.holdSamples, l.position, 0.0);
    if ending.Contact? {
      StopTakes(p, d, SampledJaws(p, g.joint, d, l.arm, l.position, g.holdSamples, l.position, 0.0).0);
    }
  }

  /** The longest a grip can take: every pass the deadline allows, the hold, and for
      a grasp whose object slips the stop. */
  function LongestGrip(p: ArmProfile, g: GripperProfile, grasp: bool): real
    requires 0.0 < p.period && 0.0 <= p.moveDeadline
  {
    Span(MostPasses(p), p.period) + Span(g.holdSamples, p.period) + if grasp then StopTime(p) else 0.0
  }

  /** A grasp can take that long if a stall window fits into the passes after the
      first; a release always can. */
  predicate LongestIsReached(p: ArmProfile, grasp: bool)
    requires 0.0 < p.period && 0.0 <= p.moveDeadline
  {
    grasp ==> p.stallWindow <= Span(MostPasses(p) - 1, p.period)
  }

  /** A grip takes no longer than that, and within its budget where it cannot take
      that long. */
  lemma GripTakes<S>(p: ArmProfile, g: GripperProfile, d: Driver<S>, a: Arm<S>, grasp: bool, target: real)
    requires p.Valid() && g.joint in p.Names() && 1 <= g.holdSamples
    ensures Takes(a, RunGrip(p, g, d, a, grasp, target).0,
                  if LongestIsReached(p, grasp) then Max(LongestGrip(p, g, grasp), GripBudget(p, g)) else GripBudget(p, g))
  {
    hide Prepare, GripLooped, EndGrip, MayStart, Span, Passes, StopBudget, StopTime;
    var (a1, ready) := Prepare(p, d, a, MayStart(g, grasp));
    PreparingTakesNoTime(p, d, a, MayStart(g, grasp));
    GripBudgetCovers(p, g);
    if ready.Ok? && ready.value.Ready? {
      var start := ready.value.before[g.joint];
      var deadline := a1.now + p.moveDeadline;
      var l := Grip(a1, start, start, a1.now, start);
      GripLoopTakesPasses(p, g, d, grasp, start, target, deadline, a1.now, l);
      assert PassesLeft(a1.now, deadline, p.period) == MostPasses(p) by { assert deadline - a1.now == p.moveDeadline; }
      var (last, ending) := GripLooped(p, g, d, grasp, start, target, deadline, l);
      EndGripTakes(p, g, d, grasp, start, target, last, ending);
      SpanStep(MostPasses(p), p.period);
    }
  }

  /** Every pass and a stop are within the budget: it counts the hold too, which is at
      least one period. */
  lemma GripBudgetCovers(p: ArmProfile, g: GripperProfile)
    requires p.Valid() && 1 <= g.holdSamples
    ensures 0.0 <= Span(MostPasses(p), p.period) && 0.0 <= Span(g.holdSamples, p.period) && 0.0 <= StopTime(p)
    ensures Span(MostPasses(p), p.period) + StopTime(p) <= GripBudget(p, g)
  {
    hide Span, Passes, StopBudget;
    BudgetsAreSpans(p);
    GripBudgetIsSpans(p, g);
    PassesFit(p.moveDeadline, p.period);
    SpanStep(MostPasses(p), p.period);
    SpanStep(g.holdSamples, p.period);
    SpanIsNonNegative(MostPasses(p), p.period);
  }

  function GripTimeout(p: ArmProfile, g: GripperProfile, grasp: bool): int {
    if grasp then GraspRow(p, g).timeoutMs else ReleaseRow(p, g).timeoutMs
  }

  /** The row's time for a grasp or a release covers this call. */
  predicate GripInTime<S>(p: ArmProfile, d: Driver<S>, a: Arm<S>, request: Request)
    requires p.Valid() && p.gripper.Some?
  {
    (Grips(p, d, a, request).0.now - a.now) * 1000.0
    <= GripTimeout(p, p.gripper.value, request.capability.Grasps?) as real
  }

  /** The row's time covers the longest grip there can be: a condition on the profile
      alone. */
  predicate RowCoversGrip(p: ArmProfile, g: GripperProfile, grasp: bool)
    requires 0.0 < p.period && 0.0 <= p.moveDeadline
  {
    LongestIsReached(p, grasp) ==> LongestGrip(p, g, grasp) * 1000.0 <= GripTimeout(p, g, grasp) as real
  }

  /** Then a grasp or a release ends within its row's time on every exit. */
  lemma GripEndsInTime<S>(p: ArmProfile, d: Driver<S>, a: Arm<S>, request: Request)
    requires p.Valid() && p.gripper.Some? && RowCoversGrip(p, p.gripper.value, request.capability.Grasps?)
    ensures a.now <= Grips(p, d, a, request).0.now && GripInTime(p, d, a, request)
  {
    hide RunGrip, GripTarget, Milliseconds, StopBudget, Span, GripBudget, LongestGrip, LongestIsReached;
    var g := p.gripper.value;
    var target := GripTarget(g, request);
    GripBudgetCovers(p, g);
    RowAllows(GripBudget(p, g), GripBudget(p, g));
    if target.Some? {
      GripTakes(p, g, d, a, request.capability.Grasps?, target.value);
    }
  }

  /** A period of at most two seconds is short enough for any grip. */
  lemma ShortPeriodCoversGrips(p: ArmProfile, g: GripperProfile, grasp: bool)
    requires p.Valid() && p.period <= 2.0 && 1 <= g.holdSamples
    ensures RowCoversGrip(p, g, grasp)
  {
    hide Milliseconds, StopBudget, Span, Passes;
    BudgetsAreSpans(p);
    GripBudgetIsSpans(p, g);
    PassesFit(p.moveDeadline, p.period);
    SpanStep(MostPasses(p), p.period);
    RowAllows(LongestGrip(p, g, grasp), GripBudget(p, g));
  }

  /** A halt always ends within its row's time. */
  lemma HaltEndsInTime<S>(p: ArmProfile, d: Driver<S>, a: Arm<S>)
    requires p.Valid()
    ensures a.now <= Stop(p, d, a).0.now && (Stop(p, d, a).0.now - a.now) * 1000.0 <= Milliseconds(StopBudget(p)) as real
  {
    hide Stop, Milliseconds;
    StopTakes(p, d, a);
    RowAllows(Stop(p, d, a).0.now - a.now, StopBudget(p));
  }
}
