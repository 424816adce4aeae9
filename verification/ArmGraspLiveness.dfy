/** What a grasp does on a healthy simulated bus with one object between the jaws: it
    closes on the object, notices that the jaws have stopped, and holds it
    (flyto_robotics/arm_adapter.py, flyto_robotics/arm_bus.py). */
module ArmGraspLiveness {
  import opened Wrappers
  import opened ArmProfile
  import opened ArmBus
  import opened ArmMotion
  import opened ArmGrip
  import opened ArmCalls
  import opened ArmSetpoints
  import opened ArmSafety
  import opened ArmLiveness

  /** A simulated bus with no fault, whose only object is between the jaws, does not
      slip and is met in the closing direction; its servos keep up with the jaws. */
  predicate Offers(p: ArmProfile, g: GripperProfile, s: Sim, item: SimulatedObject) {
    && s.Valid() && s.connected && s.stalled == {} && s.missing == {} && s.sag == 0.0 && s.dropAfterWrites.None?
    && p.Names() <= s.goals.Keys && p.Names() <= s.torque.Keys && GripStep(p, g) <= s.servoStep
    && s.objects == [item] && item.joint == g.joint && item.joint in s.positions
    && item.closing == -g.Opening() && item.slipPerRead == 0.0
  }

  // ---------------------------------------------------------------------------
  // Jaws by their gap
  // ---------------------------------------------------------------------------

  lemma GapOfToward(g: GripperProfile, x: real, goal: real, reach: real)
    requires 0.0 <= reach
    ensures g.Gap(goal) <= g.Gap(x) ==> g.Gap(goal) <= g.Gap(Toward(x, goal, reach)) <= g.Gap(x)
    ensures Abs(goal - x) <= reach ==> Toward(x, goal, reach) == goal
  {
  }

  /** Closing, the setpoint's gap shrinks by a step at a time to nothing. */
  lemma GapAlong(g: GripperProfile, start: real, step: real, k: nat)
    requires 0.0 < step && 0.0 <= g.Gap(start)
    ensures g.Gap(Along(start, g.closedRad, step, k)) == g.Gap(start) - Min(g.Gap(start), k as real * step)
  {
    OneMoreStep(step, k);
  }

  lemma GapShrinks(g: GripperProfile, start: real, step: real, k: nat)
    requires 0.0 < step && 0.0 <= g.Gap(start)
    ensures 0.0 <= g.Gap(Along(start, g.closedRad, step, k + 1)) <= g.Gap(Along(start, g.closedRad, step, k))
    ensures g.Gap(Along(start, g.closedRad, step, 0)) == g.Gap(start)
    ensures Along(start, g.closedRad, step, k) == g.closedRad <==> g.Gap(Along(start, g.closedRad, step, k)) <= 0.0
    ensures 0.0 <= g.Gap(Along(start, g.closedRad, step, k))
  {
    GapAlong(g, start, step, k);
    GapAlong(g, start, step, k + 1);
    GapAlong(g, start, step, 0);
    OneMoreStep(step, k);
    assert 0 as real * step == 0.0;
    GapMoves(g, Along(start, g.closedRad, step, k), g.closedRad);
  }

  /** Whether the setpoint after `k` writes is at the object or past it. */
  predicate Touching(g: GripperProfile, start: real, at: real, step: real, k: nat) {
    g.Gap(Along(start, g.closedRad, step, k)) <= g.Gap(at)
  }

  /** Where the jaws are then. */
  function JawsAt(g: GripperProfile, start: real, at: real, step: real, k: nat): real {
    if Touching(g, start, at, step, k) then at else Along(start, g.closedRad, step, k)
  }

  lemma JawsFollow(g: GripperProfile, start: real, at: real, step: real, reach: real, k: nat)
    requires 0.0 < step <= reach && 0.0 <= g.Gap(start)
    ensures var q := Toward(JawsAt(g, start, at, step, k), Along(start, g.closedRad, step, k + 1), reach);
            && (g.Gap(q) <= g.Gap(at) <==> Touching(g, start, at, step, k + 1))
            && (!Touching(g, start, at, step, k + 1) ==> q == JawsAt(g, start, at, step, k + 1))
    ensures Touching(g, start, at, step, k) ==> Touching(g, start, at, step, k + 1)
  {
    hide Along, Toward;
    GapShrinks(g, start, step, k);
    LineIsRateLimited(start, g.closedRad, step, k);
    GapOfToward(g, JawsAt(g, start, at, step, k), Along(start, g.closedRad, step, k + 1), reach);
  }

  // ---------------------------------------------------------------------------
  // One read with the object there
  // ---------------------------------------------------------------------------

  function Met(item: SimulatedObject): SimulatedObject {
    item.(touched := true)
  }

  lemma PastIsGap(g: GripperProfile, q: real, at: real)
    ensures (q - at) * (-g.Opening()) == g.Gap(at) - g.Gap(q)
  {
  }

  lemma TouchedIs(g: GripperProfile, t: Touch, item: SimulatedObject)
    requires item.joint in t.positions && item.closing == -g.Opening() && item.slipPerRead == 0.0
    ensures var q := t.positions[item.joint];
            Touched(t, item) == if g.Gap(q) <= g.Gap(item.at)
                                then t.(positions := t.positions[item.joint := item.at], kept := t.kept + [Met(item)])
                                else if item.touched && g.Gap(item.at) - g.Gap(q) < -0.000000001
                                then t.(released := t.released + [item])
                                else t.(kept := t.kept + [item])
  {
    PastIsGap(g, t.positions[item.joint], item.at);
  }

  /** What reading the bus does to it. */
  lemma ReadWithObject(p: ArmProfile, g: GripperProfile, s: Sim, item: SimulatedObject)
    requires Offers(p, g, s, item)
    ensures g.joint in s.positions && g.joint in Servoed(s)
    ensures var q := Servoed(s)[g.joint];
            var (t, pose) := SimRead(s);
            if g.Gap(q) <= g.Gap(item.at)
            then t == s.(positions := Servoed(s)[g.joint := item.at], objects := [Met(item)]) && pose == Ok(t.positions)
            else !item.touched ==> t == s.(positions := Servoed(s)) && pose == Ok(t.positions)
  {
    hide Servoed, Touched;
    ServoedKeys(s);
    assert item in s.objects;
    var t0 := Touch(Servoed(s), [], s.released);
    TouchedIs(g, t0, item);
    assert s.objects[1..] == [];
    assert ApplyObjects(t0, s.objects) == (Touched(t0, item), []);
    var applied := ApplyObjects(t0, s.objects).0;
    assert (map n | n in applied.positions && n !in s.missing :: applied.positions[n]) == applied.positions;
    assert [] + [Met(item)] == [Met(item)] && [] + [item] == [item];
  }

  /** The jaws are at `position`, torque on, the object met or not. */
  predicate JawsHold(p: ArmProfile, g: GripperProfile, s: Sim, item: SimulatedObject, position: real) {
    Offers(p, g, s, item) && Energised(p, s) && g.joint in s.positions && s.positions[g.joint] == position
  }

  lemma ServoMoves(p: ArmProfile, g: GripperProfile, s: Sim, item: SimulatedObject, position: real)
    requires JawsHold(p, g, s, item, position) && g.joint in p.Names()
    ensures g.joint in Servoed(s) && Servoed(s)[g.joint] == Toward(position, s.goals[g.joint], s.servoStep)
  {
    hide Toward;
  }

  /** A read after which the jaws are at the object, or where the servo took them. */
  lemma JawRead(p: ArmProfile, g: GripperProfile, a: Arm<Sim>, item: SimulatedObject, position: real)
    requires g.joint in p.Names() && JawsHold(p, g, a.bus, item, position)
    ensures var q := Toward(position, a.bus.goals[g.joint], a.bus.servoStep);
            var (after, pose) := ReadPose(p, SimDriver(), a);
            && after.now == a.now && after.bus.goals == a.bus.goals && after.bus.servoStep == a.bus.servoStep
            && (g.Gap(q) <= g.Gap(item.at) ==>
                  pose.Ok? && pose.value[g.joint] == item.at && JawsHold(p, g, after.bus, Met(item), item.at))
            && (g.Gap(q) > g.Gap(item.at) && !item.touched ==>
                  pose.Ok? && pose.value[g.joint] == q && JawsHold(p, g, after.bus, item, q))
  {
    hide Servoed, Toward, SimRead, GripStep;
    ReadWithObject(p, g, a.bus, item);
    ServoMoves(p, g, a.bus, item, position);
    ServoedKeys(a.bus);
    ReadFrame(a.bus);
    var (t, pose) := SimRead(a.bus);
  }

  lemma ReadFrame(s: Sim)
    ensures SimRead(s).0.goals == s.goals && SimRead(s).0.servoStep == s.servoStep
  {
    hide Servoed;
  }

  lemma JawWrite(p: ArmProfile, g: GripperProfile, a: Arm<Sim>, item: SimulatedObject, position: real, setpoint: real)
    requires g.joint in p.Names() && JawsHold(p, g, a.bus, item, position)
    ensures var (after, wrote) := WriteGoals(SimDriver(), a, ByMotion, map[g.joint := setpoint]);
            && wrote.Ok? && after.now == a.now && JawsHold(p, g, after.bus, item, position)
            && g.joint in after.bus.goals && after.bus.goals[g.joint] == setpoint && after.bus.servoStep == a.bus.servoStep
  {
    hide GripStep;
  }

  // ---------------------------------------------------------------------------
  // The loop closing on the object
  // ---------------------------------------------------------------------------

  /** An object a grasp can hold: farther from closed than an object must be, and far
      enough from the start for closing on it to count as progress. */
  predicate CanHold(p: ArmProfile, g: GripperProfile, start: real, at: real) {
    && g.minGap <= g.Gap(at) < g.Gap(start) && p.stallMinProgress <= Abs(at - start)
  }

  /** Writes that close the jaws all the way. */
  predicate Closes(g: GripperProfile, start: real, step: real, n: nat) {
    Along(start, g.closedRad, step, n) == g.closedRad
  }

  /** The position progress was last noted at, and after which pass. */
  datatype Notice = Notice(position: real, pass: nat)

  /** What the loop has noted after `k` passes of closing on an object that stays put. */
  function Noticed(p: ArmProfile, g: GripperProfile, start: real, at: real, k: nat): Notice {
    if k == 0 then Notice(start, 0)
    else
      var before := Noticed(p, g, start, at, k - 1);
      var position := JawsAt(g, start, at, GripStep(p, g), k);
      if Progressed(p, position, before.position) then Notice(position, k) else before
  }

  /** After `k` passes the setpoint is past jaws that made no progress for a stall
      window: the loop takes that for contact. */
  predicate InContact(p: ArmProfile, g: GripperProfile, start: real, at: real, k: nat) {
    var step := GripStep(p, g);
    && 1 <= k && Abs(Along(start, g.closedRad, step, k) - JawsAt(g, start, at, step, k)) > g.tolerance
    && Later(0.0, k, p.period) - Later(0.0, Noticed(p, g, start, at, k).pass, p.period) >= p.stallWindow
  }

  /** After `k` writes since `began`: setpoint on the line, jaws at the object once it
      is reached, and progress noted when it was made. */
  ghost predicate Closing(p: ArmProfile, g: GripperProfile, item: SimulatedObject, start: real, began: real, k: nat,
                          l: Grip<Sim>)
  {
    var step := GripStep(p, g);
    var noticed := Noticed(p, g, start, item.at, k);
    && l.setpoint == Along(start, g.closedRad, step, k) && l.position == JawsAt(g, start, item.at, step, k)
    && JawsHold(p, g, l.arm.bus, if Touching(g, start, item.at, step, k) then Met(item) else item, l.position)
    && l.arm.now == Later(began, k, p.period)
    && l.reference == noticed.position && l.progressAt == Later(began, noticed.pass, p.period)
    && (1 <= k ==> JawsTold(g, l.arm.bus, l.setpoint))
  }

  predicate JawsTold(g: GripperProfile, s: Sim, goal: real) {
    g.joint in s.goals && s.goals[g.joint] == goal
  }

  lemma TouchesByEnd(g: GripperProfile, start: real, at: real, step: real, n: nat, k: nat)
    requires 0.0 < step && 0.0 <= g.Gap(start) && 0.0 <= g.Gap(at) && Closes(g, start, step, n) && n <= k
    ensures Touching(g, start, at, step, k) && Along(start, g.closedRad, step, k) == g.closedRad
    decreases k
  {
    hide Along;
    GapShrinks(g, start, step, k);
    if k > n {
      TouchesByEnd(g, start, at, step, n, k - 1);
      GapShrinks(g, start, step, k - 1);
    }
  }

  /** Nowhere on the way are the jaws within tolerance of closed. */
  lemma NeverAtTarget(p: ArmProfile, g: GripperProfile, start: real, at: real, step: real, k: nat)
    requires g.tolerance < g.minGap && CanHold(p, g, start, at)
    ensures Abs(JawsAt(g, start, at, step, k) - g.closedRad) > g.tolerance
    ensures g.Gap(JawsAt(g, start, at, step, k)) >= g.minGap
  {
    hide Along;
    GapMoves(g, JawsAt(g, start, at, step, k), g.closedRad);
  }

  lemma ClosedIsPast(g: GripperProfile, at: real)
    requires g.tolerance < g.minGap <= g.Gap(at)
    ensures Abs(g.closedRad - at) > g.tolerance
  {
    GapMoves(g, g.closedRad, at);
  }

  /** The judgement after a reading on the way: contact or nothing yet, never a stall,
      an empty grip or the target. */
  lemma JudgedOnTheWay(p: ArmProfile, g: GripperProfile, item: SimulatedObject, start: real, began: real, k: nat, l: Grip<Sim>)
    requires 0.0 < g.tolerance < g.minGap && CanHold(p, g, start, item.at) && 1 <= k && Closing(p, g, item, start, began, k, l)
    ensures JudgeGrip(p, g, true, start, g.closedRad, l) == if InContact(p, g, start, item.at, k) then Some(Contact) else None
    ensures InContact(p, g, start, item.at, k) ==> l.position == item.at
  {
    hide Along, GripStep, JawsHold, Later, Noticed;
    NeverAtTarget(p, g, start, item.at, GripStep(p, g), k);
    Shifted(began, k, p.period);
    Shifted(began, Noticed(p, g, start, item.at, k).pass, p.period);
  }

  lemma ReadOnTheWay(p: ArmProfile, g: GripperProfile, item: SimulatedObject, start: real, began: real, k: nat, l: Grip<Sim>)
    requires g.joint in p.Names() && 0.0 < GripStep(p, g) && 0.0 <= g.Gap(start) && !item.touched
    requires Closing(p, g, item, start, began, k, l)
    ensures var step := GripStep(p, g);
            var setpoint := Along(start, g.closedRad, step, k + 1);
            var (a1, wrote) := WriteGoals(SimDriver(), l.arm, ByMotion, map[g.joint := setpoint]);
            var (a2, pose) := ReadPose(p, SimDriver(), Slept(a1, p.period));
            var position := JawsAt(g, start, item.at, step, k + 1);
            && wrote.Ok? && pose.Ok? && pose.value[g.joint] == position && a2.now == l.arm.now + p.period
            && JawsHold(p, g, a2.bus, if Touching(g, start, item.at, step, k + 1) then Met(item) else item, position)
            && (Touching(g, start, item.at, step, k) ==> Touching(g, start, item.at, step, k + 1))
            && JawsTold(g, a2.bus, setpoint)
  {
    hide Along, GripStep, JawsHold, Later, WriteGoals, ReadPose, Toward, Touching, Noticed;
    var step := GripStep(p, g);
    var setpoint := Along(start, g.closedRad, step, k + 1);
    var met := if Touching(g, start, item.at, step, k) then Met(item) else item;
    ReachKeepsUp(p, g, l.arm.bus, met, l.position);
    JawWrite(p, g, l.arm, met, l.position, setpoint);
    var (a1, wrote) := WriteGoals(SimDriver(), l.arm, ByMotion, map[g.joint := setpoint]);
    JawRead(p, g, Slept(a1, p.period), met, l.position);
    JawsFollow(g, start, item.at, step, a1.bus.servoStep, k);
  }

  lemma ReachKeepsUp(p: ArmProfile, g: GripperProfile, s: Sim, item: SimulatedObject, position: real)
    requires JawsHold(p, g, s, item, position)
    ensures GripStep(p, g) <= s.servoStep
  {
    hide GripStep;
  }

  /** One pass on the way. */
  lemma PassOnTheWay(p: ArmProfile, g: GripperProfile, item: SimulatedObject, start: real, began: real, k: nat, deadline: real,
                     l: Grip<Sim>)
    requires p.Valid() && p.gripper == Some(g) && g.joint in p.Names() && 0.0 < GripStep(p, g) && 0.0 <= g.Gap(start)
    requires !item.touched && 0.0 < g.tolerance < g.minGap && CanHold(p, g, start, item.at)
    requires Closing(p, g, item, start, began, k, l) && l.arm.now <= deadline
    ensures var (next, ending) := GripPass(p, g, SimDriver(), true, start, g.closedRad, deadline, l);
            && Closing(p, g, item, start, began, k + 1, next)
            && ending == (if InContact(p, g, start, item.at, k + 1) then Some(Contact) else None)
            && (ending == Some(Contact) ==> next.position == item.at)
  {
    hide Along, GripStep, JawsHold, Later, WriteGoals, ReadPose, Toward, Touching, JawsAt, JudgeGrip, InContact;
    var step := GripStep(p, g);
    StepFollowsLine(start, g.closedRad, step, k);
    ReadOnTheWay(p, g, item, start, began, k, l);
    var setpoint := Along(start, g.closedRad, step, k + 1);
    var a1 := WriteGoals(SimDriver(), l.arm, ByMotion, map[g.joint := setpoint]).0;
    var (a2, pose) := ReadPose(p, SimDriver(), Slept(a1, p.period));
    var position := pose.value[g.joint];
    var moved := Progressed(p, position, l.reference);
    var next := Grip(a2, setpoint, if moved then position else l.reference, if moved then a2.now else l.progressAt, position);
    OneMoreAfter(began, k, p.period);
    assert GripPass(p, g, SimDriver(), true, start, g.closedRad, deadline, l)
           == (next, JudgeGrip(p, g, true, start, g.closedRad, next));
    JudgedOnTheWay(p, g, item, start, began, k + 1, next);
  }

  lemma OneMoreAfter(began: real, k: nat, period: real)
    ensures Later(began, k + 1, period) == Later(began, k, period) + period
  {
  }

  lemma LaterAfter(began: real, j: nat, k: nat, period: real)
    requires j <= k && 0.0 < period
    ensures Later(began, j, period) <= Later(began, k, period)
  {
    var d: nat := k - j;
    assert k as real == j as real + d as real;
    assert 0.0 <= d as real * period;
    assert (j as real + d as real) * period == j as real * period + d as real * period;
  }

  /** From anywhere on the way the loop ends after the first pass in contact, the jaws
      at the object, if that pass starts by the deadline, and else out of time. */
  lemma {:induction false} LoopMakesContact(p: ArmProfile, g: GripperProfile, item: SimulatedObject, start: real, began: real,
                                            k: nat, deadline: real, l: Grip<Sim>) returns (m: nat)
    requires p.Valid() && p.gripper == Some(g) && g.joint in p.Names() && 0.0 < GripStep(p, g) && 0.0 <= g.Gap(start)
    requires !item.touched && 0.0 < g.tolerance < g.minGap && CanHold(p, g, start, item.at)
    requires Closing(p, g, item, start, began, k, l)
    ensures var (last, ending) := GripLooped(p, g, SimDriver(), true, start, g.closedRad, deadline, l);
            if ending.Contact? then
              && k < m && InContact(p, g, start, item.at, m) && Later(began, m - 1, p.period) <= deadline
              && (forall j :: k < j < m ==> !InContact(p, g, start, item.at, j))
              && Closing(p, g, item, start, began, m, last) && last.position == item.at
            else
              && ending.GripOutOfTime?
              && forall j :: k < j && InContact(p, g, start, item.at, j) ==> deadline < Later(began, j - 1, p.period)
    decreases PassesLeft(l.arm.now, deadline, p.period)
  {
    hide GripPass, CanHold, GripStep, Later, InContact, JawsHold, Along, Noticed, JawsAt;
    if l.arm.now > deadline {
      LateGripEnds(p, g, true, start, g.closedRad, deadline, l);
      m := k;
      forall j | k < j && InContact(p, g, start, item.at, j)
        ensures deadline < Later(began, j - 1, p.period)
      {
        LaterAfter(began, k, j - 1, p.period);
      }
    } else {
      var (next, ending) := GripPass(p, g, SimDriver(), true, start, g.closedRad, deadline, l);
      PassOnTheWay(p, g, item, start, began, k, deadline, l);
      if ending.Some? {
        m := k + 1;
      } else {
        OnePassLess(l.arm.now, deadline, p.period);
        OneMoreAfter(began, k, p.period);
        m := LoopMakesContact(p, g, item, start, began, k + 1, deadline, next);
      }
    }
  }

  lemma LateGripEnds(p: ArmProfile, g: GripperProfile, grasp: bool, start: real, target: real, deadline: real, l: Grip<Sim>)
    requires 0.0 < p.period && g.joint in p.Names() && l.arm.now > deadline
    ensures GripLooped(p, g, SimDriver(), grasp, start, target, deadline, l) == (l, GripOutOfTime)
  {
  }

  // ---------------------------------------------------------------------------
  // Before and after the loop
  // ---------------------------------------------------------------------------

  /** Jaws told to close past the object they are on stay on it. */
  lemma {:induction false} HoldStays(p: ArmProfile, g: GripperProfile, a: Arm<Sim>, item: SimulatedObject, count: nat)
    requires g.joint in p.Names() && JawsHold(p, g, a.bus, Met(item), item.at) && 0.0 < GripStep(p, g)
    requires g.joint in a.bus.goals && g.Gap(a.bus.goals[g.joint]) <= g.Gap(item.at)
    ensures var (after, sampled) := SampledJaws(p, g.joint, SimDriver(), a, item.at, count, item.at, 0.0);
            sampled == Ok((item.at, 0.0)) && JawsHold(p, g, after.bus, Met(item), item.at)
    decreases count
  {
    hide ReadPose, JawsHold, Toward, GripStep;
    if count > 0 {
      var b := Slept(a, p.period);
      ReachKeepsUp(p, g, a.bus, Met(item), item.at);
      GapOfToward(g, item.at, b.bus.goals[g.joint], b.bus.servoStep);
      JawRead(p, g, b, Met(item), item.at);
      var after := ReadPose(p, SimDriver(), b).0;
      assert Max(0.0, Abs(item.at - item.at)) == 0.0;
      HoldStays(p, g, after, item, count - 1);
    }
  }

  lemma ContactIsHeld(p: ArmProfile, g: GripperProfile, item: SimulatedObject, start: real, began: real, m: nat, l: Grip<Sim>)
    requires p.Valid() && p.gripper == Some(g) && g.joint in p.Names() && 0.0 < GripStep(p, g) && 0.0 < g.holdMaxDrift
    requires CanHold(p, g, start, item.at) && Closing(p, g, item, start, began, m, l) && l.position == item.at
    requires 1 <= m
    ensures var (after, ran) := EndGrip(p, g, SimDriver(), true, start, g.closedRad, l, Contact);
            && ran.Ok? && ran.value.outcome.Completed? && ran.value.reason.ObjectHeld? && ran.value.held == Some(true)
            && JawsHold(p, g, after.bus, Met(item), item.at)
  {
    hide SampledJaws, JawsHold, Along, Later, HeldPhase, JawPhases, JawPhase, GripStep;
    TouchesWhenThere(p, g, item, start, began, m, l);
    HoldStays(p, g, l.arm, item, g.holdSamples);
  }

  /** Jaws at the object have met it. */
  lemma TouchesWhenThere(p: ArmProfile, g: GripperProfile, item: SimulatedObject, start: real, began: real, m: nat,
                         l: Grip<Sim>)
    requires 1 <= m && Closing(p, g, item, start, began, m, l) && l.position == item.at
    ensures JawsHold(p, g, l.arm.bus, Met(item), item.at) && g.Gap(l.setpoint) <= g.Gap(item.at)
    ensures JawsTold(g, l.arm.bus, l.setpoint)
  {
    hide JawsHold, Along, Later, GripStep;
  }

  /** A read before the jaws reach the object. */
  lemma ReadBeforeObject(p: ArmProfile, g: GripperProfile, a: Arm<Sim>, item: SimulatedObject)
    requires g.joint in p.Names() && Offers(p, g, a.bus, item) && !item.touched
    requires var before := ReadPose(p, SimDriver(), a).1; before.Ok? && g.Gap(before.value[g.joint]) > g.Gap(item.at)
    ensures var (after, before) := ReadPose(p, SimDriver(), a);
            && after == a.(bus := after.bus) && Offers(p, g, after.bus, item) && after.bus.torque == a.bus.torque
            && g.joint in after.bus.positions && after.bus.positions[g.joint] == before.value[g.joint]
  {
    hide Servoed, SimRead, GripStep;
    ReadWithObject(p, g, a.bus, item);
    ServoedKeys(a.bus);
    var (t, pose) := SimRead(a.bus);
  }

  /** Torque on, the jaws where they are and the object as it is. */
  lemma TorqueWithObject(p: ArmProfile, g: GripperProfile, a: Arm<Sim>, item: SimulatedObject, before: Pose)
    requires Offers(p, g, a.bus, item) && before.Keys == p.Names() && g.joint in p.Names()
    requires g.joint in a.bus.positions && a.bus.positions[g.joint] == before[g.joint]
    ensures var (after, enabled) := EnableTorque(p, SimDriver(), a, before);
            enabled == Ok(Driven) && after.now == a.now && JawsHold(p, g, after.bus, item, before[g.joint])
  {
    hide GripStep;
    TorqueReads(p, g, a, item);
    if !Energised(p, a.bus) {
      var a2 := WriteGoals(SimDriver(), a, ByMotion, before).0;
      WritesPose(p, g, a, item, before);
      var a3 := SetTorque(SimDriver(), a2, ByMotion, true).0;
      TurnsOn(p, g, a2, item);
      TorqueReads(p, g, a3, item);
    }
  }

  lemma TorqueReads(p: ArmProfile, g: GripperProfile, a: Arm<Sim>, item: SimulatedObject)
    requires Offers(p, g, a.bus, item)
    ensures var (after, torque) := ReadTorque(p, SimDriver(), a);
            torque.Ok? && after == a && (AllOn(torque.value) <==> Energised(p, a.bus))
  {
    hide GripStep;
  }

  lemma WritesPose(p: ArmProfile, g: GripperProfile, a: Arm<Sim>, item: SimulatedObject, goals: Pose)
    requires Offers(p, g, a.bus, item)
    ensures var (after, wrote) := WriteGoals(SimDriver(), a, ByMotion, goals);
            wrote.Ok? && after.now == a.now && Offers(p, g, after.bus, item) && after.bus.positions == a.bus.positions
  {
    hide GripStep;
  }

  lemma TurnsOn(p: ArmProfile, g: GripperProfile, a: Arm<Sim>, item: SimulatedObject)
    requires Offers(p, g, a.bus, item)
    ensures var (after, wrote) := SetTorque(SimDriver(), a, ByMotion, true);
            && wrote.Ok? && after.now == a.now && Offers(p, g, after.bus, item) && Energised(p, after.bus)
            && after.bus.positions == a.bus.positions
  {
    hide GripStep;
  }

  lemma StartsClosing(p: ArmProfile, g: GripperProfile, item: SimulatedObject, a: Arm<Sim>, start: real)
    requires p.Valid() && 0.0 < GripStep(p, g) && 0.0 <= g.Gap(item.at) < g.Gap(start)
    requires JawsHold(p, g, a.bus, item, start)
    ensures Closing(p, g, item, start, a.now, 0, Grip(a, start, start, a.now, start))
  {
    hide Along, GripStep, JawsHold;
    GapShrinks(g, start, GripStep(p, g), 0);
    StepFollowsLine(start, g.closedRad, GripStep(p, g), 0);
    assert Later(a.now, 0, p.period) == a.now;
  }

  /** What a grasp may start from with an object it can hold between its jaws. */
  ghost predicate MayGrasp(p: ArmProfile, g: GripperProfile, a: Arm<Sim>, item: SimulatedObject) {
    && p.gripper == Some(g) && g.joint in p.Names() && 0.0 < GripStep(p, g)
    && Offers(p, g, a.bus, item) && !item.touched
    && var before := ReadPose(p, SimDriver(), a).1;
       && before.Ok? && p.InLimits(before.value) && OpenEnough(g, before.value[g.joint])
       && CanHold(p, g, before.value[g.joint], item.at)
  }

  /** Some pass in contact starts by the deadline. */
  ghost predicate ContactInTime(p: ArmProfile, g: GripperProfile, start: real, at: real) {
    exists k: nat :: InContact(p, g, start, at, k) && Later(0.0, k - 1, p.period) <= p.moveDeadline
  }

  /** The loop is reached, with the jaws where they were read. */
  lemma GraspStarts(p: ArmProfile, g: GripperProfile, a: Arm<Sim>, item: SimulatedObject) returns (a1: Arm<Sim>, start: real)
    requires p.Valid() && MayGrasp(p, g, a, item)
    ensures start == ReadPose(p, SimDriver(), a).1.value[g.joint]
    ensures var (after, ready) := Prepare(p, SimDriver(), a, MayStart(g, true));
            after == a1 && ready.Ok? && ready.value.Ready? && ready.value.before[g.joint] == start
    ensures CanHold(p, g, start, item.at) && 0.0 <= g.Gap(item.at) < g.Gap(start)
    ensures Closing(p, g, item, start, a1.now, 0, Grip(a1, start, start, a1.now, start))
  {
    hide ReadPose, EnableTorque, Closing, JawsHold, Offers, OpenEnough, CanHold, GripStep;
    var (a0, pose) := ReadPose(p, SimDriver(), a);
    var before := pose.value;
    start := before[g.joint];
    GripperIsValid(p, g);
    GapsOrdered(p, g, start, item.at);
    ReadBeforeObject(p, g, a, item);
    TorqueWithObject(p, g, a0, item, before);
    a1 := Prepare(p, SimDriver(), a, MayStart(g, true)).0;
    assert a1 == EnableTorque(p, SimDriver(), a0, before).0;
    StartsClosing(p, g, item, a1, start);
  }

  /** On a healthy simulated bus whose one object is farther from closed than the
      object gap, a grasp from open jaws completes holding it, the jaws at the object,
      if a pass in contact starts by the deadline, and times out otherwise. */
  lemma GraspOfObject(p: ArmProfile, g: GripperProfile, a: Arm<Sim>, item: SimulatedObject)
    requires p.Valid() && MayGrasp(p, g, a, item)
    ensures var start := ReadPose(p, SimDriver(), a).1.value[g.joint];
            var (after, ran) := RunGrip(p, g, SimDriver(), a, true, g.closedRad);
            && ran.Ok?
            && (if ContactInTime(p, g, start, item.at) then
                  && ran.value.outcome.Completed? && ran.value.reason.ObjectHeld? && ran.value.held == Some(true)
                  && after.bus.objects == [Met(item)] && JawsHold(p, g, after.bus, Met(item), item.at)
                else ran.value.outcome.TimedOut? && ran.value.held == Some(false))
  {
    hide ReadPose, Prepare, GripLooped, EndGrip, Closing, JawsHold, Offers, CanHold, GripStep, Later, InContact,
      ContactInTime, MayStart;
    var a1, start := GraspStarts(p, g, a, item);
    GripperIsValid(p, g);
    var l, deadline := Grip(a1, start, start, a1.now, start), a1.now + p.moveDeadline;
    var m := LoopMakesContact(p, g, item, start, a1.now, 0, deadline, l);
    var (last, ending) := GripLooped(p, g, SimDriver(), true, start, g.closedRad, deadline, l);
    if ending.Contact? {
      Shifted(a1.now, m - 1, p.period);
      IsInTime(p, g, start, item.at, m);
      ContactIsHeld(p, g, item, start, a1.now, m, last);
      ObjectStays(p, g, EndGrip(p, g, SimDriver(), true, start, g.closedRad, last, Contact).0.bus, item);
    } else {
      NoContactInTime(p, g, start, item.at, a1.now);
      GraspTimesOut(p, g, start, last);
    }
  }

  /** The call itself completes exactly then. */
  lemma GraspCompletesExactlyWhen(p: ArmProfile, a: Arm<Sim>, item: SimulatedObject, request: Request)
    requires p.Valid() && p.gripper.Some? && MayGrasp(p, p.gripper.value, a, item) && !MotionBlocked(p, a)
    requires request.capability.Grasps? && request.arguments == map[]
    ensures var start := ReadPose(p, SimDriver(), a).1.value[p.gripper.value.joint];
            var result := Grips(p, SimDriver(), a, request).1;
            && (result.outcome.Completed? <==> ContactInTime(p, p.gripper.value, start, item.at))
            && (if result.outcome.Completed? then result.held == Some(true)
                else result.outcome.TimedOut? && result.held == Some(false))
  {
    hide ReadPose, RunGrip, ContactInTime, MayGrasp, JawsHold;
    GraspOfObject(p, p.gripper.value, a, item);
  }

  lemma IsInTime(p: ArmProfile, g: GripperProfile, start: real, at: real, k: nat)
    requires 1 <= k && InContact(p, g, start, at, k) && Later(0.0, k - 1, p.period) <= p.moveDeadline
    ensures ContactInTime(p, g, start, at)
  {
    hide InContact, Later;
  }

  lemma NoContactInTime(p: ArmProfile, g: GripperProfile, start: real, at: real, began: real)
    requires forall j: nat :: 0 < j && InContact(p, g, start, at, j) ==> began + p.moveDeadline < Later(began, j - 1, p.period)
    ensures !ContactInTime(p, g, start, at)
  {
    hide Later, InContact;
    forall k: nat | InContact(p, g, start, at, k)
      ensures 1 <= k && p.moveDeadline < Later(0.0, k - 1, p.period)
    {
      ContactIsLater(p, g, start, at, k);
      Shifted(began, k - 1, p.period);
    }
  }

  lemma ContactIsLater(p: ArmProfile, g: GripperProfile, start: real, at: real, k: nat)
    requires InContact(p, g, start, at, k)
    ensures 1 <= k
  {
  }

  lemma GraspTimesOut(p: ArmProfile, g: GripperProfile, start: real, l: Grip<Sim>)
    requires g.joint in p.Names()
    ensures var ran := EndGrip(p, g, SimDriver(), true, start, g.closedRad, l, GripOutOfTime).1;
            ran.Ok? && ran.value.outcome.TimedOut? && ran.value.held == Some(false)
  {
    hide Stop;
  }

  /** Once the jaws are closed all the way no more progress is noted. */
  lemma {:induction false} NoticedByEnd(p: ArmProfile, g: GripperProfile, start: real, at: real, n: nat, k: nat)
    requires 0.0 < GripStep(p, g) && 0.0 <= g.Gap(start) && 0.0 <= g.Gap(at) && 0.0 < p.stallMinProgress
    requires Closes(g, start, GripStep(p, g), n) && 1 <= n <= k
    ensures Noticed(p, g, start, at, k).pass <= n
    ensures Noticed(p, g, start, at, k).position == at || Abs(at - Noticed(p, g, start, at, k).position) < p.stallMinProgress
    decreases k
  {
    hide Along, Closes, Touching;
    TouchesByEnd(g, start, at, GripStep(p, g), n, k);
    JawsOnObject(g, start, at, GripStep(p, g), k);
    if k == n {
      NoticedBefore(p, g, start, at, n);
    } else {
      NoticedByEnd(p, g, start, at, n, k - 1);
    }
  }

  lemma {:induction false} NoticedBefore(p: ArmProfile, g: GripperProfile, start: real, at: real, k: nat)
    ensures Noticed(p, g, start, at, k).pass <= k
  {
    hide JawsAt, Progressed;
    if k > 0 {
      NoticedBefore(p, g, start, at, k - 1);
    }
  }

  /** Periods that cover a span, and no more than needed. */
  lemma PeriodsCover(span: real, period: real) returns (w: nat)
    requires 0.0 < period && 0.0 < span
    ensures 1 <= w && Later(0.0, w - 1, period) < span <= Later(0.0, w, period)
  {
    var q := QuotientOf(span, period);
    assert 0.0 < q;
    w := -((-q).Floor);
    assert (w - 1) as real < q <= w as real;
    TimesGrows((w - 1) as real, q, period);
    if q < w as real {
      TimesGrows(q, w as real, period);
    }
  }

  lemma LaterAdds(j: nat, k: nat, period: real)
    ensures Later(0.0, j + k, period) == Later(0.0, j, period) + Later(0.0, k, period)
  {
    assert (j + k) as real == j as real + k as real;
  }

  /** Closed all the way on the object, the jaws are in contact a stall window later. */
  lemma ContactComes(p: ArmProfile, g: GripperProfile, start: real, at: real, n: nat) returns (k: nat)
    requires p.Valid() && 0.0 < GripStep(p, g) && CanHold(p, g, start, at) && 0.0 <= g.Gap(at) && g.tolerance < g.minGap
    requires Closes(g, start, GripStep(p, g), n)
    ensures InContact(p, g, start, at, k) && Later(0.0, k - 1, p.period) <= Later(0.0, n, p.period) + p.stallWindow
  {
    StartsOpen(p, g, start, at, n);
    hide Along, Closes, Noticed, Later, JawsAt, Touching;
    var w := PeriodsCover(p.stallWindow, p.period);
    k := n + w;
    NoticedByEnd(p, g, start, at, n, k);
    var pass := Noticed(p, g, start, at, k).pass;
    TouchesByEnd(g, start, at, GripStep(p, g), n, k);
    ClosedIsPast(g, at);
    JawsOnObject(g, start, at, GripStep(p, g), k);
    LaterAfter(0.0, pass, n, p.period);
    LaterAdds(n, w, p.period);
    LaterAdds(n, w - 1, p.period);
  }

  lemma StartsOpen(p: ArmProfile, g: GripperProfile, start: real, at: real, n: nat)
    requires 0.0 < GripStep(p, g) && CanHold(p, g, start, at) && 0.0 <= g.Gap(at) && Closes(g, start, GripStep(p, g), n)
    ensures 1 <= n
  {
    hide Along;
    GapShrinks(g, start, GripStep(p, g), 0);
  }

  lemma JawsOnObject(g: GripperProfile, start: real, at: real, step: real, k: nat)
    requires Touching(g, start, at, step, k)
    ensures JawsAt(g, start, at, step, k) == at
  {
    hide Along;
  }

  /** So a deadline that allows closing all the way and a stall window more is enough. */
  lemma GraspHoldsObject(p: ArmProfile, g: GripperProfile, a: Arm<Sim>, item: SimulatedObject, n: nat)
    requires p.Valid() && MayGrasp(p, g, a, item)
    requires Closes(g, ReadPose(p, SimDriver(), a).1.value[g.joint], GripStep(p, g), n)
    requires Later(0.0, n, p.period) + p.stallWindow <= p.moveDeadline
    ensures var (after, ran) := RunGrip(p, g, SimDriver(), a, true, g.closedRad);
            && ran.Ok? && ran.value.outcome.Completed? && ran.value.reason.ObjectHeld? && ran.value.held == Some(true)
            && after.bus.objects == [Met(item)] && JawsHold(p, g, after.bus, Met(item), item.at)
  {
    hide ReadPose, RunGrip, JawsHold, Offers, GripStep, Later, InContact, Closes, OpenEnough;
    var start := ReadPose(p, SimDriver(), a).1.value[g.joint];
    GripperIsValid(p, g);
    GapsOrdered(p, g, start, item.at);
    var k := ContactComes(p, g, start, item.at, n);
    GraspOfObject(p, g, a, item);
  }

  lemma GripperIsValid(p: ArmProfile, g: GripperProfile)
    requires p.Valid() && p.gripper == Some(g)
    ensures g.joint in p.Names() && 0.0 < g.tolerance < g.minGap && 0.0 < g.holdMaxDrift && 0.0 < GripStep(p, g)
  {
    GripStepIsPositive(p, g);
  }

  /** The bus of a new simulated arm with such an object placed between its jaws. */
  lemma NewBusOffers(p: ArmProfile, g: GripperProfile, joints: set<string>, at: Pose, torque: bool, servoStep: real,
                     item: SimulatedObject)
    requires p.Names() <= joints && g.joint in joints && GripStep(p, g) <= servoStep
    requires item.joint == g.joint && item.closing == -g.Opening() && item.slipPerRead == 0.0
    ensures Offers(p, g, NewSim(joints, at, torque, servoStep).(objects := [item]), item)
  {
  }

  lemma GapsOrdered(p: ArmProfile, g: GripperProfile, start: real, at: real)
    requires CanHold(p, g, start, at) && 0.0 < g.minGap
    ensures 0.0 <= g.Gap(at) < g.Gap(start)
  {
  }

  lemma ObjectStays(p: ArmProfile, g: GripperProfile, s: Sim, item: SimulatedObject)
    requires JawsHold(p, g, s, Met(item), item.at)
    ensures s.objects == [Met(item)]
  {
    hide GripStep;
  }
}
