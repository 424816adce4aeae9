/** A motion's setpoint loop in one thread and safe stops in any number of others,
    step by step over the lock and the stop flag they share
    (flyto_robotics/arm_adapter.py).

    A step is one action between two points where another thread may run. Poses,
    faults and judgements are choices an action carries, so a statement over every
    run is one over every bus and every schedule. */
module ArmInterleaving {
  import opened Wrappers
  import opened ArmProfile

  datatype Thread = Mover | Stopper(i: nat)

  datatype Write = Setpoint(pose: Pose) | HoldPose(thread: Thread, pose: Pose)

  /** Where a stop is. The lock is held from `Locked` to the end of it, the
      confirmation's sleeps included. */
  datatype StopAt = AwaitsLock | Locked | HasRead(pose: Pose) | HasWritten(pose: Pose) | StopOver

  datatype StopStep = Acquire | Read(pose: Pose) | WriteHold | Confirm | CutTorque | BreakOff

  /** Where the motion is: before its flag is cleared, then around its loop. */
  datatype MotionAt =
    | NotStarted | LoopTop | AwaitsWrite(setpoint: Pose) | Unchecked(setpoint: Pose) | Checked(setpoint: Pose)
    | Sleeping | Judging | Stopping(at: StopAt) | MotionOver

  datatype Action =
    | Request
    | Stops(i: nat, step: StopStep)
    | Clear
    | Top(late: bool, setpoint: Pose)
    | Lock
    | Check
    | WriteSetpoint(broke: bool)
    | ReadBack(broke: bool)
    | GoOn(next: Verdict)
    | OwnStop(step: StopStep)

  datatype Verdict = Again | StopNow | Settles

  datatype World = World(mode: StopMode, flag: bool, holder: Option<Thread>, motion: MotionAt, stops: seq<StopAt>,
                         writes: seq<Write>)

  predicate Locks(at: StopAt) {
    at.Locked? || at.HasRead? || at.HasWritten?
  }

  predicate MotionLocks(at: MotionAt) {
    at.Unchecked? || at.Checked? || (at.Stopping? && Locks(at.at))
  }

  // ---------------------------------------------------------------------------
  // Steps
  // ---------------------------------------------------------------------------

  /** One step of a stop: where it is next, who holds the lock, what it wrote. */
  datatype StopMove = StopMove(at: StopAt, holder: Option<Thread>, writes: seq<Write>)

  function StopNext(mode: StopMode, me: Thread, at: StopAt, holder: Option<Thread>, step: StopStep): Option<StopMove> {
    match (at, step)
    case (AwaitsLock, Acquire) => if holder.None? then Some(StopMove(Locked, Some(me), [])) else None
    case (Locked, Read(pose)) => if mode.StopHold? then Some(StopMove(HasRead(pose), holder, [])) else None
    case (HasRead(pose), WriteHold) => Some(StopMove(HasWritten(pose), holder, [HoldPose(me, pose)]))
    case (HasWritten(_), Confirm) => Some(StopMove(StopOver, None, []))
    case (Locked, CutTorque) => if mode.StopTorqueOff? then Some(StopMove(StopOver, None, [])) else None
    case (_, BreakOff) => if Locks(at) then Some(StopMove(StopOver, None, [])) else None
    case (_, _) => None
  }

  /** One action, where it can happen. */
  function Next(w: World, a: Action): Option<World> {
    match a
    case Request => Some(w.(flag := true, stops := w.stops + [AwaitsLock]))
    case Stops(i, step) =>
      if i >= |w.stops| then None
      else
        var m := StopNext(w.mode, Stopper(i), w.stops[i], w.holder, step);
        if m.None? then None
        else Some(w.(stops := w.stops[i := m.value.at], holder := m.value.holder, writes := w.writes + m.value.writes))
    case OwnStop(step) =>
      if !w.motion.Stopping? then None
      else
        var m := StopNext(w.mode, Mover, w.motion.at, w.holder, step);
        if m.None? then None
        else Some(w.(motion := if m.value.at.StopOver? then MotionOver else Stopping(m.value.at),
                     holder := m.value.holder, writes := w.writes + m.value.writes))
    case Clear => if w.motion.NotStarted? then Some(w.(flag := false, motion := LoopTop)) else None
    case Top(late, setpoint) =>
      if !w.motion.LoopTop? then None
      else if w.flag then Some(w.(motion := MotionOver))
      else if late then Some(w.(motion := Stopping(AwaitsLock)))
      else Some(w.(motion := AwaitsWrite(setpoint)))
    case Lock =>
      if w.motion.AwaitsWrite? && w.holder.None?
      then Some(w.(motion := Unchecked(w.motion.setpoint), holder := Some(Mover))) else None
    case Check =>
      if !w.motion.Unchecked? then None
      else if w.flag then Some(w.(motion := LoopTop, holder := None))
      else Some(w.(motion := Checked(w.motion.setpoint)))
    case WriteSetpoint(broke) =>
      if !w.motion.Checked? then None
      else Some(w.(motion := if broke then MotionOver else Sleeping, holder := None,
                   writes := w.writes + [Setpoint(w.motion.setpoint)]))
    case ReadBack(broke) =>
      if w.motion.Sleeping? && w.holder.None? then Some(w.(motion := if broke then MotionOver else Judging)) else None
    case GoOn(next) =>
      if !w.motion.Judging? then None
      else Some(w.(motion := match next case Again => LoopTop case StopNow => Stopping(AwaitsLock) case Settles => MotionOver))
  }

  /** A run: every action in turn, each of which could happen. */
  function Run(w: World, actions: seq<Action>): Option<World>
    decreases |actions|
  {
    if actions == [] then Some(w)
    else
      var next := Next(w, actions[0]);
      if next.None? then None else Run(next.value, actions[1..])
  }

  /** Some stop, requested before or being carried out, is not over yet. */
  ghost predicate Unfinished(w: World) {
    exists i :: 0 <= i < |w.stops| && !w.stops[i].StopOver?
  }

  /** A motion at the top of its setpoint loop, wherever its stops are, with the flag
      set if one of them is not over. */
  ghost predicate EntersLoop(w: World) {
    w.motion.LoopTop? && LockIsRight(w) && (Unfinished(w) ==> w.flag)
  }

  // ---------------------------------------------------------------------------
  // What every step keeps, from entry to the loop in world `e` on
  // ---------------------------------------------------------------------------

  /** A stop that was not over at entry, or was requested since. */
  predicate Counts(e: World, i: nat) {
    i >= |e.stops| || !e.stops[i].StopOver?
  }

  /** Some such stop has held the lock. */
  ghost predicate StopHeld(e: World, w: World) {
    exists i :: 0 <= i < |w.stops| && Counts(e, i) && !w.stops[i].AwaitsLock?
  }

  ghost predicate SomeCounts(e: World, w: World) {
    exists i :: 0 <= i < |w.stops| && Counts(e, i)
  }

  predicate LockIsRight(w: World) {
    && (w.holder == Some(Mover) <==> MotionLocks(w.motion))
    && (w.holder.Some? && w.holder.value.Stopper? ==> w.holder.value.i < |w.stops|)
    && (forall i :: 0 <= i < |w.stops| ==> (w.holder == Some(Stopper(i)) <==> Locks(w.stops[i])))
  }

  /** A stop has written a hold pose since entry. */
  predicate WroteHold(e: World, w: World) {
    exists k :: |e.writes| <= k < |w.writes| && w.writes[k].HoldPose?
  }

  /** The motion has left its loop for good. */
  predicate LeftLoop(at: MotionAt) {
    at.Stopping? || at.MotionOver?
  }

  ghost predicate Later(e: World, w: World) {
    && |e.stops| <= |w.stops| && |e.writes| <= |w.writes|
    && (forall i :: 0 <= i < |e.stops| && e.stops[i].StopOver? ==> w.stops[i].StopOver?)
  }

  ghost predicate Inv(e: World, w: World) {
    && Later(e, w)
    && LockIsRight(w)
    && !w.motion.NotStarted?
    && (SomeCounts(e, w) ==> w.flag)
    && (StopHeld(e, w) ==> !w.motion.Checked?)
    && (WroteHold(e, w) ==> LeftLoop(w.motion) || StopHeld(e, w))
    && (WroteHold(e, w) ==> w.writes[|w.writes| - 1].HoldPose?)
  }

  lemma EntersInv(e: World)
    requires EntersLoop(e)
    ensures Inv(e, e)
  {
    assert SomeCounts(e, e) ==> Unfinished(e);
  }

  lemma StopNextLocks(mode: StopMode, me: Thread, at: StopAt, holder: Option<Thread>, step: StopStep)
    requires StopNext(mode, me, at, holder, step).Some? && (holder == Some(me) <==> Locks(at))
    ensures var m := StopNext(mode, me, at, holder, step).value;
            && (m.holder == Some(me) <==> Locks(m.at)) && (m.holder == Some(me) || m.holder.None?)
            && (holder == Some(me) || holder.None?) && !m.at.AwaitsLock? && !at.StopOver?
            && (m.writes == [] || (Locks(at) && exists pose :: m.writes == [HoldPose(me, pose)]))
  {
  }

  lemma StopsStepKeeps(e: World, w: World, i: nat, step: StopStep)
    requires Inv(e, w) && Next(w, Stops(i, step)).Some?
    ensures Inv(e, Next(w, Stops(i, step)).value) && StopHeld(e, Next(w, Stops(i, step)).value)
  {
    hide StopNext;
    var m := StopNext(w.mode, Stopper(i), w.stops[i], w.holder, step).value;
    StopNextLocks(w.mode, Stopper(i), w.stops[i], w.holder, step);
    var v := Next(w, Stops(i, step)).value;
    assert Counts(e, i) && !v.stops[i].AwaitsLock?;
    assert SomeCounts(e, w);
    WritesGrow(e, w, v, m.writes);
  }

  lemma WritesGrow(e: World, w: World, v: World, writes: seq<Write>)
    requires |e.writes| <= |w.writes| && v.writes == w.writes + writes
    requires writes == [] || exists me, pose :: writes == [HoldPose(me, pose)]
    ensures WroteHold(e, v) <==> WroteHold(e, w) || writes != []
    ensures writes != [] ==> v.writes[|v.writes| - 1].HoldPose?
  {
    forall k | 0 <= k < |w.writes|
      ensures v.writes[k] == w.writes[k]
    {
    }
    if writes != [] {
      assert v.writes[|w.writes|].HoldPose?;
    }
  }

  lemma OwnStopKeeps(e: World, w: World, step: StopStep)
    requires Inv(e, w) && Next(w, OwnStop(step)).Some?
    ensures Inv(e, Next(w, OwnStop(step)).value) && (StopHeld(e, w) ==> StopHeld(e, Next(w, OwnStop(step)).value))
  {
    hide StopNext;
    var m := StopNext(w.mode, Mover, w.motion.at, w.holder, step).value;
    StopNextLocks(w.mode, Mover, w.motion.at, w.holder, step);
    var v := Next(w, OwnStop(step)).value;
    WritesGrow(e, w, v, m.writes);
    SameStops(e, w, v);
  }

  lemma SameStops(e: World, w: World, v: World)
    requires v.stops == w.stops
    ensures (StopHeld(e, v) <==> StopHeld(e, w)) && (SomeCounts(e, v) <==> SomeCounts(e, w))
  {
  }

  lemma RequestKeeps(e: World, w: World)
    requires Inv(e, w)
    ensures Inv(e, Next(w, Request).value) && (StopHeld(e, w) ==> StopHeld(e, Next(w, Request).value))
  {
    var v := Next(w, Request).value;
    if StopHeld(e, w) {
      var i :| 0 <= i < |w.stops| && Counts(e, i) && !w.stops[i].AwaitsLock?;
      assert v.stops[i] == w.stops[i];
    }
    if StopHeld(e, v) {
      var i :| 0 <= i < |v.stops| && Counts(e, i) && !v.stops[i].AwaitsLock?;
      assert v.stops[i] == w.stops[i];
    }
  }

  lemma MotionKeeps(e: World, w: World, a: Action)
    requires Inv(e, w) && Next(w, a).Some? && !a.Request? && !a.Stops? && !a.OwnStop?
    ensures Inv(e, Next(w, a).value) && (StopHeld(e, w) ==> StopHeld(e, Next(w, a).value))
  {
    var v := Next(w, a).value;
    SameStops(e, w, v);
    if a.Check? && !w.flag {
      assert StopHeld(e, w) ==> SomeCounts(e, w);
    }
    if a.WriteSetpoint? {
      assert !WroteHold(e, w);
      forall k | |e.writes| <= k < |v.writes|
        ensures !v.writes[k].HoldPose?
      {
        if k < |w.writes| {
          assert v.writes[k] == w.writes[k];
        }
      }
    }
  }

  lemma StepKeeps(e: World, w: World, a: Action)
    requires Inv(e, w) && Next(w, a).Some?
    ensures var v := Next(w, a).value;
            && Inv(e, v) && (StopHeld(e, w) ==> StopHeld(e, v)) && (w.flag ==> v.flag)
  {
    hide Inv, StopHeld, StopNext;
    match a
    case Request => RequestKeeps(e, w);
    case Stops(i, step) => StopsStepKeeps(e, w, i, step);
    case OwnStop(step) => OwnStopKeeps(e, w, step);
    case Clear => NotCleared(e, w);
    case _ => MotionKeeps(e, w, a);
  }

  lemma NotCleared(e: World, w: World)
    requires Inv(e, w)
    ensures !w.motion.NotStarted?
  {
  }

  lemma {:induction false} RunKeeps(e: World, w: World, actions: seq<Action>)
    requires Inv(e, w) && Run(w, actions).Some?
    ensures Inv(e, Run(w, actions).value)
    decreases |actions|
  {
    hide Inv, Next;
    if actions != [] {
      StepKeeps(e, w, actions[0]);
      RunKeeps(e, Next(w, actions[0]).value, actions[1..]);
    }
  }

  // ---------------------------------------------------------------------------
  // The promises
  // ---------------------------------------------------------------------------

  function Setpoints(writes: seq<Write>): nat {
    if writes == [] then 0
    else Setpoints(writes[..|writes| - 1]) + if writes[|writes| - 1].Setpoint? then 1 else 0
  }

  lemma SetpointsNext(writes: seq<Write>, write: Write)
    ensures Setpoints(writes + [write]) == Setpoints(writes) + if write.Setpoint? then 1 else 0
  {
    assert (writes + [write])[..|writes|] == writes;
  }

  /** A setpoint is written in one place only: after the check, under the lock. */
  lemma StepWrites(w: World, a: Action)
    requires Next(w, a).Some?
    ensures var v := Next(w, a).value;
            && Setpoints(v.writes) == Setpoints(w.writes) + (if a.WriteSetpoint? then 1 else 0)
            && (a.WriteSetpoint? ==> w.motion.Checked? && !v.motion.Checked?)
            && (v.motion.Checked? ==> w.motion.Checked? || !w.flag)
  {
    if a.WriteSetpoint? {
      SetpointsNext(w.writes, Setpoint(w.motion.setpoint));
    } else if a.Stops? {
      HoldIsNoSetpoint(w, Stopper(a.i), w.stops[a.i], a.step);
    } else if a.OwnStop? {
      HoldIsNoSetpoint(w, Mover, w.motion.at, a.step);
    }
  }

  lemma HoldIsNoSetpoint(w: World, me: Thread, at: StopAt, step: StopStep)
    requires StopNext(w.mode, me, at, w.holder, step).Some?
    ensures Setpoints(w.writes + StopNext(w.mode, me, at, w.holder, step).value.writes) == Setpoints(w.writes)
  {
    var writes := StopNext(w.mode, me, at, w.holder, step).value.writes;
    if writes == [] {
      assert w.writes + writes == w.writes;
    } else {
      SetpointsNext(w.writes, writes[0]);
    }
  }

  /** Once a safe stop holds the lock, nothing that happens writes another setpoint. */
  lemma {:induction false} NoSetpointOnceHeld(e: World, w: World, actions: seq<Action>)
    requires Inv(e, w) && StopHeld(e, w) && Run(w, actions).Some?
    ensures Setpoints(Run(w, actions).value.writes) == Setpoints(w.writes)
    decreases |actions|
  {
    hide Next, StopHeld, WroteHold, LockIsRight, Setpoints;
    if actions != [] {
      StepWrites(w, actions[0]);
      StepKeeps(e, w, actions[0]);
      NoSetpointOnceHeld(e, Next(w, actions[0]).value, actions[1..]);
    }
  }

  /** Once the flag is set, at most one more setpoint is written: the one whose check
      had already passed. */
  lemma {:induction false} OneSetpointAfterRequest(e: World, w: World, actions: seq<Action>)
    requires Inv(e, w) && w.flag && Run(w, actions).Some?
    ensures Setpoints(Run(w, actions).value.writes) <= Setpoints(w.writes) + if w.motion.Checked? then 1 else 0
    decreases |actions|
  {
    hide Next, Inv, Setpoints;
    if actions != [] {
      StepWrites(w, actions[0]);
      StepKeeps(e, w, actions[0]);
      OneSetpointAfterRequest(e, Next(w, actions[0]).value, actions[1..]);
    }
  }

  /** From the top of a setpoint loop with the flag set for any stop not over, over
      every interleaving with any number of safe stops: after such a stop has held
      the lock no setpoint is written, and once any stop has written a hold pose the
      last goal on the bus is a stop's hold pose. */
  lemma StopsWin(start: World, before: seq<Action>, after: seq<Action>)
    requires EntersLoop(start) && Run(start, before).Some? && Run(Run(start, before).value, after).Some?
    ensures var w := Run(start, before).value;
            var v := Run(w, after).value;
            && (StopHeld(start, w) ==> Setpoints(v.writes) == Setpoints(w.writes))
            && (w.flag ==> Setpoints(v.writes) <= Setpoints(w.writes) + if w.motion.Checked? then 1 else 0)
            && (WroteHold(start, v) ==> v.writes[|v.writes| - 1].HoldPose?)
  {
    hide Run, StopHeld, LockIsRight, Setpoints;
    EntersInv(start);
    RunKeeps(start, start, before);
    var w := Run(start, before).value;
    RunKeeps(start, w, after);
    if StopHeld(start, w) {
      NoSetpointOnceHeld(start, w, after);
    }
    if w.flag {
      OneSetpointAfterRequest(start, w, after);
    }
  }

  /** Nothing that happens from here on writes a setpoint after a stop, not over yet
      or still to come, has held the lock. */
  ghost predicate HonoursStops(start: World) {
    forall before, after ::
      Run(start, before).Some? && Run(Run(start, before).value, after).Some? && StopHeld(start, Run(start, before).value) ==>
        Setpoints(Run(Run(start, before).value, after).value.writes) == Setpoints(Run(start, before).value.writes)
  }

  /** At the top of its loop a motion honours every stop if and only if the flag is
      set whenever one is not over. */
  lemma StopsHonouredExactlyWhen(start: World, setpoint: Pose)
    requires start.motion.LoopTop? && LockIsRight(start)
    ensures HonoursStops(start) <==> (Unfinished(start) ==> start.flag)
  {
    hide Run, LockIsRight, Setpoints, StopHeld, Unfinished;
    if Unfinished(start) ==> start.flag {
      forall before, after |
        Run(start, before).Some? && Run(Run(start, before).value, after).Some? && StopHeld(start, Run(start, before).value)
        ensures Setpoints(Run(Run(start, before).value, after).value.writes) == Setpoints(Run(start, before).value.writes)
      {
        StopsWin(start, before, after);
      }
    } else {
      var before := UnflaggedStopIsLost(start, setpoint);
    }
  }

  /** So a stop that is not over when a motion clears the flag is lost on it. */
  lemma ClearedStopsHonouredExactlyWhen(w: World, setpoint: Pose)
    requires w.motion.NotStarted? && LockIsRight(w)
    ensures Next(w, Clear).Some? && (HonoursStops(Next(w, Clear).value) <==> !Unfinished(w))
  {
    hide HonoursStops;
    var start := Next(w, Clear).value;
    assert Unfinished(start) <==> Unfinished(w);
    StopsHonouredExactlyWhen(start, setpoint);
  }

  /** With a stop not over and the flag clear, that stop can be carried out to its end
      and the motion write its next setpoint after it. */
  lemma UnflaggedStopIsLost(start: World, setpoint: Pose) returns (before: seq<Action>)
    requires start.motion.LoopTop? && LockIsRight(start) && Unfinished(start) && !start.flag
    ensures Run(start, before).Some? && StopHeld(start, Run(start, before).value)
    ensures var after := [Top(false, setpoint), Lock, Check, WriteSetpoint(false)];
            var w := Run(start, before).value;
            Run(w, after).Some? && Run(w, after).value.writes == w.writes + [Setpoint(setpoint)]
    ensures !HonoursStops(start)
  {
    hide Run, LockIsRight, StopHeld, Setpoints;
    var i := NextToFinish(start);
    var w;
    before, w := FinishStop(start, i, setpoint);
    WritesNext(w, setpoint);
    SetpointsNext(w.writes, Setpoint(setpoint));
    assert StopHeld(start, w) by { HeldBy(start, w, i); }
  }

  lemma HeldBy(e: World, w: World, i: nat)
    requires i < |w.stops| && Counts(e, i) && !w.stops[i].AwaitsLock?
    ensures StopHeld(e, w)
  {
  }

  /** The stop that holds the lock, or any that waits for it while it is free. */
  lemma NextToFinish(start: World) returns (i: nat)
    requires start.motion.LoopTop? && LockIsRight(start) && Unfinished(start)
    ensures i < |start.stops| && !start.stops[i].StopOver?
    ensures start.holder == (if start.stops[i].AwaitsLock? then None else Some(Stopper(i)))
  {
    if start.holder.Some? {
      i := start.holder.value.i;
    } else {
      i :| 0 <= i < |start.stops| && !start.stops[i].StopOver?;
    }
  }

  /** A stop that holds the lock, or can take it, carried out whole. */
  lemma FinishStop(start: World, i: nat, held: Pose) returns (actions: seq<Action>, w: World)
    requires start.motion.LoopTop? && !start.flag && i < |start.stops| && !start.stops[i].StopOver?
    requires start.holder == (if start.stops[i].AwaitsLock? then None else Some(Stopper(i)))
    ensures Run(start, actions) == Some(w) && w.motion.LoopTop? && !w.flag && w.holder.None?
    ensures |w.stops| == |start.stops| && w.stops[i].StopOver?
    decreases match start.stops[i] case AwaitsLock => 4 case Locked => 3 case HasRead(_) => 2 case _ => 1
  {
    hide Run;
    var step := match start.stops[i]
      case AwaitsLock => Acquire
      case Locked => if start.mode.StopHold? then Read(held) else CutTorque
      case HasRead(_) => WriteHold
      case _ => Confirm;
    var next := Next(start, Stops(i, step)).value;
    if next.stops[i].StopOver? {
      Then(start, Stops(i, step), next, []);
      AtEnd(next);
      actions, w := [Stops(i, step)], next;
      assert [Stops(i, step)] + [] == [Stops(i, step)];
    } else {
      var rest;
      rest, w := FinishStop(next, i, held);
      actions := [Stops(i, step)] + rest;
      Then(start, Stops(i, step), next, rest);
    }
  }

  /** With the flag clear and the lock free the loop writes its setpoint. */
  lemma WritesNext(w: World, setpoint: Pose)
    requires w.motion.LoopTop? && !w.flag && w.holder.None?
    ensures var v := Run(w, [Top(false, setpoint), Lock, Check, WriteSetpoint(false)]);
            v.Some? && v.value.writes == w.writes + [Setpoint(setpoint)] && v.value.stops == w.stops
  {
    hide Run;
    var w1 := w.(motion := AwaitsWrite(setpoint));
    var w2 := w.(motion := Unchecked(setpoint), holder := Some(Mover));
    var w3 := w2.(motion := Checked(setpoint));
    var w4 := w.(motion := Sleeping, writes := w.writes + [Setpoint(setpoint)]);
    var r3 := [WriteSetpoint(false)];
    var r2 := [Check] + r3;
    var r1 := [Lock] + r2;
    assert [Top(false, setpoint)] + r1 == [Top(false, setpoint), Lock, Check, WriteSetpoint(false)];
    Then(w, Top(false, setpoint), w1, r1);
    Then(w1, Lock, w2, r2);
    Then(w2, Check, w3, r3);
    assert r3 == [WriteSetpoint(false)] + [];
    Then(w3, WriteSetpoint(false), w4, []);
    AtEnd(w4);
  }

  /** A stop requested before a motion clears the flag is lost on it: the stop holds
      the arm, lets go of the lock, and the motion writes its setpoint over the hold. */
  lemma RequestBeforeClearIsLost(setpoint: Pose, held: Pose)
    ensures var start := World(StopHold, false, None, NotStarted, [], []);
            var stop := [Request, Clear, Stops(0, Acquire), Stops(0, Read(held)), Stops(0, WriteHold), Stops(0, Confirm)];
            var w := Run(start, stop + [Top(false, setpoint), Lock, Check, WriteSetpoint(false)]);
            w.Some? && w.value.stops == [StopOver] && w.value.writes == [HoldPose(Stopper(0), held), Setpoint(setpoint)]
  {
    hide Run;
    var hold := HoldPose(Stopper(0), held);
    var rest := [Top(false, setpoint), Lock, Check, WriteSetpoint(false)];
    LostStop(held, rest);
    WritesNext(World(StopHold, false, None, LoopTop, [StopOver], [hold]), setpoint);
    assert [hold] + [Setpoint(setpoint)] == [hold, Setpoint(setpoint)];
  }

  /** The stop of that run, whole. */
  lemma LostStop(held: Pose, rest: seq<Action>)
    ensures var start := World(StopHold, false, None, NotStarted, [], []);
            var stop := [Request, Clear, Stops(0, Acquire), Stops(0, Read(held)), Stops(0, WriteHold), Stops(0, Confirm)];
            Run(start, stop + rest)
            == Run(World(StopHold, false, None, LoopTop, [StopOver], [HoldPose(Stopper(0), held)]), rest)
  {
    hide Run;
    var hold := HoldPose(Stopper(0), held);
    var r5 := [Stops(0, Confirm)] + rest;
    var r4 := [Stops(0, WriteHold)] + r5;
    var r3 := [Stops(0, Read(held))] + r4;
    var r2 := [Stops(0, Acquire)] + r3;
    var r1 := [Clear] + r2;
    assert [Request, Clear, Stops(0, Acquire), Stops(0, Read(held)), Stops(0, WriteHold), Stops(0, Confirm)] + rest
           == [Request] + r1;
    var w0 := World(StopHold, false, None, NotStarted, [], []);
    var w1 := w0.(flag := true, stops := [AwaitsLock]);
    var w2 := w0.(motion := LoopTop, stops := [AwaitsLock]);
    var w3 := w2.(holder := Some(Stopper(0)), stops := [Locked]);
    var w4 := w3.(stops := [HasRead(held)]);
    var w5 := w3.(stops := [HasWritten(held)], writes := [hold]);
    var w6 := w2.(stops := [StopOver], writes := [hold]);
    assert w0.stops + [AwaitsLock] == [AwaitsLock];
    Then(w0, Request, w1, r1);
    Then(w1, Clear, w2, r2);
    StopThen(w2, Acquire, w3, r3);
    StopThen(w3, Read(held), w4, r4);
    StopThen(w4, WriteHold, w5, r5);
    StopThen(w5, Confirm, w6, rest);
  }

  lemma Then(w: World, a: Action, v: World, rest: seq<Action>)
    requires Next(w, a) == Some(v)
    ensures Run(w, [a] + rest) == Run(v, rest)
  {
    assert ([a] + rest)[1..] == rest;
  }

  lemma StopThen(w: World, step: StopStep, v: World, rest: seq<Action>)
    requires |w.stops| == 1 && StopNext(w.mode, Stopper(0), w.stops[0], w.holder, step).Some?
    requires var m := StopNext(w.mode, Stopper(0), w.stops[0], w.holder, step).value;
             v == w.(stops := [m.at], holder := m.holder, writes := w.writes + m.writes)
    ensures Run(w, [Stops(0, step)] + rest) == Run(v, rest)
  {
    hide Run;
    var m := StopNext(w.mode, Stopper(0), w.stops[0], w.holder, step).value;
    assert w.stops[0 := m.at] == [m.at];
    Then(w, Stops(0, step), v, rest);
  }

  lemma AtEnd(w: World)
    ensures Run(w, []) == Some(w)
  {
  }
}
