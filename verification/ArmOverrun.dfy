/** The longest move happens: for every profile a bus on which a move makes every
    pass its deadline allows, arrives in the last and settles
    (flyto_robotics/arm_adapter.py, flyto_robotics/arm_contracts.py). */
module ArmOverrun {
  import opened Wrappers
  import opened ArmProfile
  import opened ArmBus
  import opened ArmMotion
  import opened ArmCalls
  import opened ArmSafety
  import opened ArmContracts
  import opened ArmTiming

  /** Where every joint is told to go, and where it reads before and after. */
  function Home(p: ArmProfile): Pose {
    map n | n in p.Names() :: p.Limit(n).minRad
  }

  /** The `n`-th reading: off target, and on the move, up to the last pass but one. */
  function Reading(p: ArmProfile, n: nat): Pose
    requires p.Valid()
  {
    map name | name in p.Names() :: Home(p)[name] + Off(p, n)
  }

  function Off(p: ArmProfile, n: nat): real
    requires p.Valid()
  {
    if 1 <= n < MostPasses(p) then (p.tolerance + p.stallMinProgress) * (if n % 2 == 0 then 1.0 else 2.0) else 0.0
  }

  /** How often the bus was read. */
  datatype Count = Count(times: nat)

  function ReadWandering(p: ArmProfile, c: Count): (Count, Result<Pose, BusError>)
    requires p.Valid()
  {
    (Count(c.times + 1), Ok(Reading(p, c.times)))
  }

  /** A bus that counts its readings and obeys nothing. */
  function Wanderer(p: ArmProfile): Driver<Count>
    requires p.Valid()
  {
    Driver(c => ReadWandering(p, c), c => (c, Ok(map name | name in p.Names() :: true)), (c, _) => (c, Ok(())),
           (c, _) => (c, Ok(())), (_, _) => false)
  }

  lemma OffMoves(p: ArmProfile, n: nat)
    requires p.Valid() && n < MostPasses(p)
    ensures Abs(Off(p, n + 1) - Off(p, n)) >= p.stallMinProgress || (n == 0 && MostPasses(p) == 1)
    ensures (1 <= n ==> Off(p, n) > p.tolerance) && Off(p, 0) == 0.0
  {
  }

  lemma ReadsNext(p: ArmProfile, a: Arm<Count>)
    requires p.Valid()
    ensures ReadPose(p, Wanderer(p), a) == (a.(bus := Count(a.bus.times + 1)), Ok(Reading(p, a.bus.times)))
  {
    hide Reading;
    var pose := Reading(p, a.bus.times);
    ReadingKeys(p, a.bus.times);
    assert pose == map n | n in p.Names() :: pose[n];
    assert Wanderer(p).readPositions(a.bus) == ReadWandering(p, a.bus);
  }

  lemma WritesHome(p: ArmProfile, a: Arm<Count>)
    requires p.Valid()
    ensures WriteGoals(Wanderer(p), a, ByMotion, Home(p)) == (Logged(a, Goals(ByMotion, Home(p))), Ok(()))
  {
    hide Home;
  }

  lemma TorqueIsOn(p: ArmProfile, a: Arm<Count>)
    requires p.Valid()
    ensures EnableTorque(p, Wanderer(p), a, Home(p)) == (a, Ok(Driven))
  {
    hide Home;
    var torque := map name | name in p.Names() :: true;
    assert torque.Keys == p.Names();
    assert torque == map n | n in p.Names() :: torque[n];
    assert ReadTorque(p, Wanderer(p), a) == (a, Ok(torque));
  }

  /** After `i` passes of a loop begun at `t`. */
  ghost predicate Wandering(p: ArmProfile, t: real, i: nat, l: Loop<Count>)
    requires p.Valid()
  {
    && l.arm.bus == Count(i + 1) && l.arm.now == t + Span(i, p.period) && l.setpoint == Home(p)
    && l.positions == l.reference == Reading(p, i)
    && l.progressAt == map n | n in p.Names() :: l.arm.now
  }

  lemma HomeStays(p: ArmProfile)
    requires p.Valid()
    ensures Home(p).Keys == p.Names() && Advanced(Home(p), Home(p), MoveStep(p)) == Home(p)
  {
    hide MoveStep;
    StepIsPositive(p);
    forall n | n in Home(p)
      ensures Toward(Home(p)[n], Home(p)[n], MoveStep(p)) == Home(p)[n]
    {
      TowardItself(Home(p)[n], MoveStep(p));
    }
  }

  lemma TowardItself(x: real, step: real)
    requires 0.0 <= step
    ensures Toward(x, x, step) == x
  {
  }

  /** What one pass comes to before it is judged. */
  lemma PassReads(p: ArmProfile, t: real, i: nat, l: Loop<Count>) returns (next: Loop<Count>)
    requires p.Valid() && l.Covers(p.Names()) && Wandering(p, t, i, l) && i < MostPasses(p)
    ensures next.Covers(p.Names()) && next.arm.bus == Count(i + 2) && next.arm.now == t + Span(i + 1, p.period)
    ensures next.setpoint == Home(p) && next.positions == Reading(p, i + 1)
    ensures (next.reference, next.progressAt) == Noted(p, l.(arm := next.arm, positions := next.positions), next.positions)
    ensures Pass(p, Wanderer(p), Home(p), t + p.moveDeadline, l) == (next, Judge(p, Home(p), next))
  {
    hide Reading, Noted, Judge, Advanced, WriteGoals, ReadPose, Span, Passes;
    var d := Wanderer(p);
    StillInTime(p, i);
    HomeStays(p);
    WritesHome(p, l.arm);
    var a1 := WriteGoals(d, l.arm, ByMotion, Home(p)).0;
    ReadsNext(p, Slept(a1, p.period));
    SpanStep(i + 1, p.period);
    var a2 := ReadPose(p, d, Slept(a1, p.period)).0;
    var read_ := l.(arm := a2, setpoint := Home(p), positions := Reading(p, i + 1));
    assert Reading(p, i + 1).Keys == p.Names() by { ReadingKeys(p, i + 1); }
    var (reference, progressAt) := Noted(p, read_, read_.positions);
    next := read_.(reference := reference, progressAt := progressAt);
    NotedKeys(p, read_, read_.positions);
  }

  lemma ReadingKeys(p: ArmProfile, n: nat)
    requires p.Valid()
    ensures Reading(p, n).Keys == p.Names()
  {
  }

  lemma NotedKeys<S>(p: ArmProfile, l: Loop<S>, pose: Pose)
    requires l.Covers(p.Names()) && pose.Keys == p.Names()
    ensures Noted(p, l, pose).0.Keys == p.Names() && Noted(p, l, pose).1.Keys == p.Names()
  {
  }

  lemma StillInTime(p: ArmProfile, i: nat)
    requires p.Valid() && i < MostPasses(p)
    ensures Span(i, p.period) <= p.moveDeadline
  {
    hide Span, Passes;
    PassesFit(p.moveDeadline, p.period);
    SpanGrows(i, Passes(p.moveDeadline, p.period), p.period);
  }

  lemma ReadingMoves(p: ArmProfile, i: nat)
    requires p.Valid() && i + 1 < MostPasses(p)
    ensures forall n :: n in p.Names() ==> Progressed(p, Reading(p, i + 1)[n], Reading(p, i)[n])
  {
    hide Off, MostPasses;
    OffMoves(p, i);
    forall n | n in p.Names()
      ensures Progressed(p, Reading(p, i + 1)[n], Reading(p, i)[n])
    {
      assert Reading(p, i + 1)[n] - Reading(p, i)[n] == Off(p, i + 1) - Off(p, i);
    }
  }

  lemma AllProgress(p: ArmProfile, i: nat, l: Loop<Count>)
    requires p.Valid() && l.Covers(p.Names()) && i + 1 < MostPasses(p)
    requires l.reference == Reading(p, i) && l.positions == Reading(p, i + 1)
    ensures Noted(p, l, l.positions) == (l.positions, map n | n in p.Names() :: l.arm.now)
  {
    hide Reading, Progressed, MostPasses;
    ReadingMoves(p, i);
    assert Noted(p, l, l.positions).0 == l.positions;
    assert Noted(p, l, l.positions).1 == map n | n in p.Names() :: l.arm.now;
  }

  lemma NotThereYet(p: ArmProfile, i: nat, l: Loop<Count>)
    requires p.Valid() && l.Covers(p.Names()) && 1 <= i < MostPasses(p) && Home(p).Keys == p.Names()
    requires l.positions == Reading(p, i) && l.progressAt == map n | n in p.Names() :: l.arm.now
    ensures Judge(p, Home(p), l) == None
  {
    hide Off, MostPasses;
    OffMoves(p, i);
    assert StalledJoints(p, l) == {};
    var first := p.joints[0].name;
    assert first in p.Names() && l.positions[first] - Home(p)[first] == Off(p, i);
  }

  /** Every pass but the last finds each joint off target and still making progress. */
  lemma PassWanders(p: ArmProfile, t: real, i: nat, l: Loop<Count>) returns (next: Loop<Count>)
    requires p.Valid() && l.Covers(p.Names()) && Wandering(p, t, i, l) && i + 1 < MostPasses(p)
    ensures next.Covers(p.Names()) && Wandering(p, t, i + 1, next)
    ensures Pass(p, Wanderer(p), Home(p), t + p.moveDeadline, l) == (next, None)
  {
    hide Pass, Off, Span, MostPasses, Judge, Noted, Reading;
    next := PassReads(p, t, i, l);
    var read_ := l.(arm := next.arm, positions := next.positions);
    AllProgress(p, i, read_);
    NotThereYet(p, i + 1, next);
  }

  lemma LastPassArrives(p: ArmProfile, t: real, i: nat, l: Loop<Count>) returns (next: Loop<Count>)
    requires p.Valid() && l.Covers(p.Names()) && Wandering(p, t, i, l) && i + 1 == MostPasses(p)
    ensures next.Covers(p.Names()) && next.arm.bus == Count(i + 2) && next.arm.now == t + Span(i + 1, p.period)
    ensures next.positions == Home(p)
    ensures Pass(p, Wanderer(p), Home(p), t + p.moveDeadline, l) == (next, Some(Arrived))
  {
    hide Pass, Span, MostPasses, Noted;
    next := PassReads(p, t, i, l);
    ReadsHome(p, i + 1);
    assert StalledJoints(p, next) == {};
  }

  lemma ReadsHome(p: ArmProfile, n: nat)
    requires p.Valid() && (n == 0 || n >= MostPasses(p))
    ensures Reading(p, n) == Home(p)
  {
  }

  lemma {:induction false} LoopWanders(p: ArmProfile, t: real, i: nat, l: Loop<Count>) returns (last: Loop<Count>)
    requires p.Valid() && l.Covers(p.Names()) && Wandering(p, t, i, l) && i < MostPasses(p)
    ensures last.Covers(p.Names()) && last.arm.bus == Count(MostPasses(p) + 1)
    ensures last.arm.now == t + Span(MostPasses(p), p.period) && last.positions == Home(p)
    ensures Looped(p, Wanderer(p), Home(p), t + p.moveDeadline, l) == (last, Arrived)
    decreases MostPasses(p) - i
  {
    hide Pass, Span, MostPasses, Wandering, Wanderer, Home;
    if i + 1 == MostPasses(p) {
      last := LastPassArrives(p, t, i, l);
    } else {
      var next := PassWanders(p, t, i, l);
      last := LoopWanders(p, t, i + 1, next);
    }
  }

  lemma {:induction false} SettlingStays(p: ArmProfile, a: Arm<Count>, count: nat)
    requires p.Valid() && a.bus.times >= MostPasses(p)
    ensures Home(p).Keys == p.Names()
    ensures var (after, sampled) := Sampled(p, Wanderer(p), a, Home(p), count, p.period, Home(p), 0.0);
            after.now == a.now + Span(count, p.period) && sampled == Ok((Home(p), 0.0))
    decreases count
  {
    hide Reading, ReadPose, MostPasses, Span, Home;
    HomeStays(p);
    if count == 0 {
      assert Span(0, p.period) == 0.0 by { NoSpan(p.period); }
    } else {
      ReadsNext(p, Slept(a, p.period));
      ReadsHome(p, a.bus.times);
      SameIsNoDrift(p.joints, Home(p), 0.0) by { NamesCover(p); }
      SpanStep(count, p.period);
      SettlingStays(p, ReadPose(p, Wanderer(p), Slept(a, p.period)).0, count - 1);
    }
  }

  lemma NoSpan(interval: real)
    ensures Span(0, interval) == 0.0
  {
  }

  lemma NamesCover(p: ArmProfile)
    ensures forall j :: j in p.joints ==> j.name in Home(p)
  {
  }

  lemma {:induction false} SameIsNoDrift(joints: seq<JointLimit>, pose: Pose, least: real)
    requires 0.0 <= least && forall j :: j in joints ==> j.name in pose
    ensures MaxDrift(joints, pose, pose, least) == least
  {
    if joints != [] {
      SameIsNoDrift(joints[1..], pose, least);
    }
  }

  /** The call that moves every joint to its lower limit. */
  function GoHome(p: ArmProfile): Request {
    Request("", MovesJoints, map name | name in Arguments(p) :: Number(LimitOf(p, name)))
  }

  /** The lower limit of the joint an argument is for. */
  function LimitOf(p: ArmProfile, argument: string): real
    requires argument in Arguments(p)
  {
    if |argument| >= |ARGUMENT_SUFFIX| && argument[..|argument| - |ARGUMENT_SUFFIX|] in p.Names()
    then Home(p)[argument[..|argument| - |ARGUMENT_SUFFIX|]] else 0.0
  }

  lemma ArgumentIsHome(p: ArmProfile, n: string)
    requires p.Valid() && n in p.Names()
    ensures n in Home(p) && ArgumentOf(n) in GoHome(p).arguments
    ensures GoHome(p).arguments[ArgumentOf(n)] == Number(Home(p)[n]) && InLimit(p.Limit(n), Number(Home(p)[n]))
  {
    hide Home;
    HomeStays(p);
    HomeInLimit(p, n);
    assert ArgumentOf(n)[..|ArgumentOf(n)| - |ARGUMENT_SUFFIX|] == n;
  }

  lemma TargetsAreHome(p: ArmProfile)
    requires p.Valid()
    ensures Targets(p, GoHome(p).arguments) == Some(Home(p))
  {
    var arguments := GoHome(p).arguments;
    assert arguments.Keys == Arguments(p);
    HomeStays(p);
    hide Home, GoHome, InLimit, Arguments;
    forall n | n in p.Names()
      ensures ArgumentOf(n) in arguments && arguments[ArgumentOf(n)] == Number(Home(p)[n])
      ensures n in Home(p) && InLimit(p.Limit(n), arguments[ArgumentOf(n)])
    {
      ArgumentIsHome(p, n);
    }
    hide ArgumentOf;
    TargetsOf(p, arguments, Home(p));
  }

  lemma HomeInLimit(p: ArmProfile, n: string)
    requires p.Valid() && n in p.Names()
    ensures n in Home(p) && p.Limit(n).minRad <= Home(p)[n] <= p.Limit(n).maxRad
  {
  }

  lemma IsReadyAtHome(p: ArmProfile, a: Arm<Count>)
    requires p.Valid() && a.bus == Count(0)
    ensures Prepare(p, Wanderer(p), a, Anywhere()) == (a.(bus := Count(1)), Ok(Ready(Home(p))))
  {
    hide Home, ReadPose, EnableTorque, Wanderer;
    ReadsNext(p, a);
    ReadsHome(p, 0);
    TorqueIsOn(p, a.(bus := Count(1)));
    HomeIsWithin(p);
  }

  lemma RunTakesLongest(p: ArmProfile, a: Arm<Count>)
    requires p.Valid() && a.bus == Count(0) && Home(p).Keys == p.Names()
    ensures var (after, ran) := RunMove(p, Wanderer(p), a, Home(p));
            after.now == a.now + LongestMove(p) && ran.Ok? && ran.value.outcome.Completed?
  {
    hide Home, Prepare, Looped, Sampled, Span, Passes, Wanderer;
    var a1 := a.(bus := Count(1));
    IsReadyAtHome(p, a);
    ReadsHome(p, 0);
    NoSpan(p.period);
    var l := StartLoop(a1, Home(p));
    assert Wandering(p, a.now, 0, l);
    var last := LoopWanders(p, a.now, 0, l);
    SettlingStays(p, last.arm, p.settleSamples);
  }

  /** The move takes the longest time, and completes. */
  lemma LongestMoveHappens(p: ArmProfile, a: Arm<Count>)
    requires p.Valid() && p.limitsAccepted && a.bus == Count(0) && !a.stopUnconfirmed && !a.stateUnknown
    ensures Move(p, Wanderer(p), a, GoHome(p)).0.now - a.now == LongestMove(p)
    ensures Move(p, Wanderer(p), a, GoHome(p)).1.outcome.Completed?
  {
    hide Home, RunMove, Targets, Wanderer, GoHome, LongestMove;
    TargetsAreHome(p);
    HomeStays(p);
    RunTakesLongest(p, a);
  }

  lemma HomeIsWithin(p: ArmProfile)
    requires p.Valid()
    ensures Home(p).Keys == p.Names() && p.InLimits(Home(p))
  {
  }

  /** Every move on every bus ends within its row's time if and only if the profile's
      row covers the longest one. */
  lemma MovesEndInTimeExactlyWhen(p: ArmProfile)
    requires p.Valid() && p.limitsAccepted
    ensures (forall d: Driver<Count>, a, request :: MoveInTime(p, d, a, request)) <==> RowCoversLongest(p)
  {
    hide MoveInTime, RowCoversLongest;
    if RowCoversLongest(p) {
      forall d: Driver<Count>, a, request
        ensures MoveInTime(p, d, a, request)
      {
        MoveEndsInTime(p, d, a, request);
      }
    } else {
      var a := Arm(Count(0), 0.0, false, false, []);
      LongestMoveHappens(p, a);
      Overruns(p, a);
    }
  }

  lemma Overruns(p: ArmProfile, a: Arm<Count>)
    requires p.Valid() && !RowCoversLongest(p)
    requires Move(p, Wanderer(p), a, GoHome(p)).0.now - a.now == LongestMove(p)
    ensures !MoveInTime(p, Wanderer(p), a, GoHome(p))
  {
    hide Move, LongestMove, Milliseconds, MoveBudget, Wanderer, GoHome;
  }

  /** A parsed profile may have any positive period; this one's is ten seconds. */
  function SlowProfile(): ArmProfile {
    ArmProfile([JointLimit("joint", 0.0, 1.0)], true, 0.01, 1.0, 10.0, 1.0, 1.0, 0.001, 1, 0.01, StopHold, 1, 0.1, 0.01, None)
  }

  lemma SlowProfileOverruns(a: Arm<Count>)
    requires a.bus == Count(0) && !a.stopUnconfirmed && !a.stateUnknown
    ensures SlowProfile().Valid()
    ensures !MoveInTime(SlowProfile(), Wanderer(SlowProfile()), a, GoHome(SlowProfile()))
  {
    hide SlowProfile, RowCoversLongest, MoveInTime;
    var p := SlowProfile();
    SlowIsNotCovered();
    LongestMoveHappens(p, a);
    Overruns(p, a);
  }

  lemma SlowIsNotCovered()
    ensures SlowProfile().Valid() && SlowProfile().limitsAccepted && !RowCoversLongest(SlowProfile())
  {
    var p := SlowProfile();
    assert Passes(1.0, 10.0) == 0;
    assert LongestMove(p) == 20.0;
    assert MoveBudget(p) == 11.1;
    assert Milliseconds(11.1) == 13100;
  }
}
