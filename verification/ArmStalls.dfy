/** When a motion is given up as stalled, said of the readings it saw
    (flyto_robotics/arm_adapter.py). */
module ArmStalls {
  import opened Wrappers
  import opened ArmProfile
  import opened ArmBus
  import opened ArmMotion
  import opened ArmGrip

  // ---------------------------------------------------------------------------
  // Readings of one joint
  // ---------------------------------------------------------------------------

  /** Where a joint was read, and when. */
  datatype Reading = Reading(at: real, position: real)

  /** From one reading on, none was worth progress away from it. */
  predicate StoodSince(readings: seq<Reading>, k: nat, least: real)
    requires k < |readings|
  {
    forall i :: k <= i < |readings| ==> Abs(readings[i].position - readings[k].position) < least
  }

  /** The joint had come this far from an earlier reading, or had not begun. */
  predicate CameTo(readings: seq<Reading>, k: nat, least: real)
    requires k < |readings|
  {
    k == 0 || exists j :: 0 <= j < k && Abs(readings[k].position - readings[j].position) >= least
  }

  function Age(readings: seq<Reading>, k: nat): real
    requires k < |readings|
  {
    readings[|readings| - 1].at - readings[k].at
  }

  /** The joint has made no progress for a window. */
  ghost predicate NoProgressFor(readings: seq<Reading>, window: real, least: real) {
    exists k :: 0 <= k < |readings| && StoodSince(readings, k, least) && Age(readings, k) >= window
  }

  /** It made some, or began, within the window. */
  ghost predicate ProgressWithin(readings: seq<Reading>, window: real, least: real) {
    exists k :: 0 <= k < |readings| && CameTo(readings, k, least) && Age(readings, k) < window
  }

  /** The reading a loop measures progress from. */
  predicate IsMark(readings: seq<Reading>, k: nat, least: real, mark: Reading) {
    k < |readings| && readings[k] == mark && StoodSince(readings, k, least) && CameTo(readings, k, least)
  }

  lemma FirstMark(r: Reading, least: real)
    requires 0.0 < least
    ensures IsMark([r], 0, least, r)
  {
  }

  /** One more reading: the mark stays unless it is progress. */
  lemma MarkNext(readings: seq<Reading>, k: nat, least: real, mark: Reading, r: Reading) returns (next: nat)
    requires IsMark(readings, k, least, mark) && 0.0 < least
    ensures IsMark(readings + [r], next, least, if Abs(r.position - mark.position) >= least then r else mark)
  {
    var all := readings + [r];
    assert all[k] == mark;
    if Abs(r.position - mark.position) >= least {
      next := |readings|;
      assert all[next] == r && Abs(all[next].position - all[k].position) >= least;
    } else {
      next := k;
      assert k == 0 || CameTo(all, k, least) by {
        if k > 0 {
          var j :| 0 <= j < k && Abs(readings[k].position - readings[j].position) >= least;
          assert all[j] == readings[j];
        }
      }
      forall i | k <= i < |all|
        ensures Abs(all[i].position - all[k].position) < least
      {
        assert i < |readings| ==> all[i] == readings[i];
      }
    }
  }

  /** By its mark a joint has stood for a window, or progressed within it. */
  lemma MarkTells(readings: seq<Reading>, k: nat, window: real, least: real, mark: Reading)
    requires IsMark(readings, k, least, mark)
    ensures readings[|readings| - 1].at - mark.at >= window ==> NoProgressFor(readings, window, least)
    ensures readings[|readings| - 1].at - mark.at < window ==> ProgressWithin(readings, window, least)
  {
    assert Age(readings, k) == readings[|readings| - 1].at - mark.at;
  }

  // ---------------------------------------------------------------------------
  // A move
  // ---------------------------------------------------------------------------

  /** What a loop saw by one reading, and where its setpoints were. */
  datatype Seen = Seen(at: real, setpoint: Pose, positions: Pose)

  function SeenBy<S>(l: Loop<S>): Seen {
    Seen(l.arm.now, l.setpoint, l.positions)
  }

  /** A pass that read the arm: it goes on, or ends by what it read. */
  predicate IsReading(ending: Option<Ending>) {
    ending.None? || ending.value.MadeNoProgress? || ending.value.Arrived?
  }

  /** All a move's loop sees from here on. */
  function AllSeen<S>(p: ArmProfile, d: Driver<S>, targets: Pose, deadline: real, l: Loop<S>): seq<Seen>
    requires 0.0 < p.period && l.Covers(p.Names()) && targets.Keys == p.Names()
    decreases PassesLeft(l.arm.now, deadline, p.period)
  {
    var (next, ending) := Pass(p, d, targets, deadline, l);
    if ending.None? then
      OnePassLess(l.arm.now, deadline, p.period);
      [SeenBy(next)] + AllSeen(p, d, targets, deadline, next)
    else if IsReading(ending) then [SeenBy(next)]
    else []
  }

  function At(pose: Pose, n: string): real {
    if n in pose then pose[n] else 0.0
  }

  function ReadingsOf(seen: seq<Seen>, n: string): seq<Reading> {
    seq(|seen|, i requires 0 <= i < |seen| => Reading(seen[i].at, At(seen[i].positions, n)))
  }

  predicate Short(tolerance: real, s: Seen, n: string) {
    Abs(At(s.setpoint, n) - At(s.positions, n)) > tolerance
  }

  /** Short of its setpoint and without progress for the window. */
  ghost predicate IsStuck(p: ArmProfile, tolerance: real, seen: seq<Seen>, n: string)
    requires seen != []
  {
    Short(tolerance, seen[|seen| - 1], n) && NoProgressFor(ReadingsOf(seen, n), p.stallWindow, p.stallMinProgress)
  }

  /** At its setpoint, or with progress within the window. */
  ghost predicate IsGoing(p: ArmProfile, tolerance: real, seen: seq<Seen>, n: string)
    requires seen != []
  {
    !Short(tolerance, seen[|seen| - 1], n) || ProgressWithin(ReadingsOf(seen, n), p.stallWindow, p.stallMinProgress)
  }

  /** The joints given up at a reading are stuck and all others are going. */
  ghost predicate RightlyNamed(p: ArmProfile, seen: seq<Seen>, stalled: set<string>)
    requires seen != []
  {
    && stalled <= p.Names()
    && forall n :: n in p.Names() ==>
         if n in stalled then IsStuck(p, p.tolerance, seen, n) else IsGoing(p, p.tolerance, seen, n)
  }

  /** Reading by reading: none is given up but at the last, and there those the ending names. */
  ghost predicate RightlyEnds(p: ArmProfile, seen: seq<Seen>, rest: seq<Seen>, ending: Ending)
    decreases |rest|
  {
    if rest == [] then !ending.MadeNoProgress?
    else
      var now := seen + [rest[0]];
      if |rest| == 1 && ending.MadeNoProgress? then ending.joints != {} && RightlyNamed(p, now, ending.joints)
      else RightlyNamed(p, now, {}) && RightlyEnds(p, now, rest[1..], ending)
  }

  /** Each joint's reference is its mark among the readings. */
  ghost predicate Tracks<S>(p: ArmProfile, seen: seq<Seen>, l: Loop<S>)
    requires l.Covers(p.Names())
  {
    && seen != [] && seen[|seen| - 1] == SeenBy(l)
    && forall n :: n in p.Names() ==> HasMark(p, ReadingsOf(seen, n), Reading(l.progressAt[n], l.reference[n]))
  }

  ghost predicate HasMark(p: ArmProfile, readings: seq<Reading>, mark: Reading) {
    exists k :: 0 <= k < |readings| && IsMark(readings, k, p.stallMinProgress, mark)
  }

  lemma ReadPassNotes<S>(p: ArmProfile, d: Driver<S>, targets: Pose, deadline: real, l: Loop<S>, n: string)
    requires l.Covers(p.Names()) && targets.Keys == p.Names() && n in p.Names()
    requires IsReading(Pass(p, d, targets, deadline, l).1)
    ensures var (next, ending) := Pass(p, d, targets, deadline, l);
            var reading, mark := Reading(next.arm.now, next.positions[n]), Reading(l.progressAt[n], l.reference[n]);
            && Reading(next.progressAt[n], next.reference[n])
               == (if Abs(reading.position - mark.position) >= p.stallMinProgress then reading else mark)
  {
    hide ReadPose, Judge, Advanced;
  }

  lemma ReadPassJudges<S>(p: ArmProfile, d: Driver<S>, targets: Pose, deadline: real, l: Loop<S>)
    requires l.Covers(p.Names()) && targets.Keys == p.Names()
    ensures var (next, ending) := Pass(p, d, targets, deadline, l);
            && (IsReading(ending) && StalledJoints(p, next) != {} ==> ending == Some(MadeNoProgress(StalledJoints(p, next))))
            && (IsReading(ending) && StalledJoints(p, next) == {} ==> ending.None? || ending == Some(Arrived))
  {
    hide ReadPose, Advanced, StalledJoints, HasArrived, Noted;
  }

  lemma MarkAfter<S>(p: ArmProfile, seen: seq<Seen>, l: Loop<S>, next: Loop<S>, n: string)
    requires 0.0 < p.stallMinProgress && l.Covers(p.Names()) && next.Covers(p.Names()) && n in p.Names()
    requires HasMark(p, ReadingsOf(seen, n), Reading(l.progressAt[n], l.reference[n]))
    requires var reading, mark := Reading(next.arm.now, next.positions[n]), Reading(l.progressAt[n], l.reference[n]);
             Reading(next.progressAt[n], next.reference[n])
             == (if Abs(reading.position - mark.position) >= p.stallMinProgress then reading else mark)
    ensures HasMark(p, ReadingsOf(seen + [SeenBy(next)], n), Reading(next.progressAt[n], next.reference[n]))
  {
    hide IsMark;
    var readings, mark := ReadingsOf(seen, n), Reading(l.progressAt[n], l.reference[n]);
    var k :| 0 <= k < |readings| && IsMark(readings, k, p.stallMinProgress, mark);
    var reading := Reading(next.arm.now, next.positions[n]);
    var j := MarkNext(readings, k, p.stallMinProgress, mark, reading);
    assert ReadingsOf(seen + [SeenBy(next)], n) == readings + [reading];
    assert j < |readings + [reading]| by { MarkIsReading(readings + [reading], j, p.stallMinProgress,
                                                         Reading(next.progressAt[n], next.reference[n])); }
  }

  lemma MarkIsReading(readings: seq<Reading>, k: nat, least: real, mark: Reading)
    requires IsMark(readings, k, least, mark)
    ensures k < |readings|
  {
  }

  lemma ReadPassTracks<S>(p: ArmProfile, d: Driver<S>, targets: Pose, deadline: real, l: Loop<S>, seen: seq<Seen>)
    requires 0.0 < p.stallMinProgress && l.Covers(p.Names()) && targets.Keys == p.Names() && Tracks(p, seen, l)
    requires IsReading(Pass(p, d, targets, deadline, l).1)
    ensures var next := Pass(p, d, targets, deadline, l).0;
            Tracks(p, seen + [SeenBy(next)], next)
  {
    hide Pass, HasMark;
    var next := Pass(p, d, targets, deadline, l).0;
    forall n | n in p.Names()
      ensures HasMark(p, ReadingsOf(seen + [SeenBy(next)], n), Reading(next.progressAt[n], next.reference[n]))
    {
      ReadPassNotes(p, d, targets, deadline, l, n);
      MarkAfter(p, seen, l, next, n);
    }
  }

  /** A joint counts as stalled only if it is stuck, and fails to only if it is going. */
  lemma TrackedIsNamed<S>(p: ArmProfile, seen: seq<Seen>, l: Loop<S>)
    requires l.Covers(p.Names()) && Tracks(p, seen, l)
    ensures RightlyNamed(p, seen, StalledJoints(p, l))
  {
    hide IsMark, NoProgressFor, ProgressWithin;
    forall n | n in p.Names()
      ensures if n in StalledJoints(p, l) then IsStuck(p, p.tolerance, seen, n) else IsGoing(p, p.tolerance, seen, n)
    {
      var readings, mark := ReadingsOf(seen, n), Reading(l.progressAt[n], l.reference[n]);
      var k :| 0 <= k < |readings| && IsMark(readings, k, p.stallMinProgress, mark);
      MarkTells(readings, k, p.stallWindow, p.stallMinProgress, mark);
      assert readings[|readings| - 1].at == l.arm.now;
    }
  }

  lemma {:induction false} LoopEndsRightly<S>(p: ArmProfile, d: Driver<S>, targets: Pose, deadline: real, l: Loop<S>,
                                              seen: seq<Seen>)
    requires 0.0 < p.period && 0.0 < p.stallMinProgress && l.Covers(p.Names()) && targets.Keys == p.Names()
    requires Tracks(p, seen, l)
    ensures RightlyEnds(p, seen, AllSeen(p, d, targets, deadline, l), Looped(p, d, targets, deadline, l).1)
    decreases PassesLeft(l.arm.now, deadline, p.period)
  {
    hide Pass, PassesLeft, Tracks, RightlyNamed, StalledJoints;
    var (next, ending) := Pass(p, d, targets, deadline, l);
    if IsReading(ending) {
      ReadPassTracks(p, d, targets, deadline, l, seen);
      ReadPassJudges(p, d, targets, deadline, l);
      TrackedIsNamed(p, seen + [SeenBy(next)], next);
      if ending.None? {
        OnePassLess(l.arm.now, deadline, p.period);
        LoopEndsRightly(p, d, targets, deadline, next, seen + [SeenBy(next)]);
        var rest := AllSeen(p, d, targets, deadline, next);
        assert ([SeenBy(next)] + rest)[1..] == rest;
      }
    }
  }

  lemma StartTracks<S>(p: ArmProfile, a: Arm<S>, before: Pose)
    requires before.Keys == p.Names() && 0.0 < p.stallMinProgress
    ensures Tracks(p, [SeenBy(StartLoop(a, before))], StartLoop(a, before))
  {
    var l := StartLoop(a, before);
    forall n | n in p.Names()
      ensures HasMark(p, ReadingsOf([SeenBy(l)], n), Reading(l.progressAt[n], l.reference[n]))
    {
      FirstMark(Reading(a.now, before[n]), p.stallMinProgress);
      assert ReadingsOf([SeenBy(l)], n) == [Reading(a.now, before[n])];
    }
  }

  /** Over any bus a move is given up as stalled at the first reading by which some joint,
      short of its setpoint, has made no progress for the window; the joints named are
      those, and at every reading each other joint is at its setpoint or has progressed
      within the window. */
  lemma MoveStallsRightly<S>(p: ArmProfile, d: Driver<S>, targets: Pose, deadline: real, a: Arm<S>, before: Pose)
    requires p.Valid() && before.Keys == p.Names() && targets.Keys == p.Names()
    ensures var start := StartLoop(a, before);
            RightlyEnds(p, [SeenBy(start)], AllSeen(p, d, targets, deadline, start),
                        Looped(p, d, targets, deadline, start).1)
  {
    StartTracks(p, a, before);
    LoopEndsRightly(p, d, targets, deadline, StartLoop(a, before), [SeenBy(StartLoop(a, before))]);
  }

  // ---------------------------------------------------------------------------
  // A grip
  // ---------------------------------------------------------------------------

  function JawsSeen<S>(g: GripperProfile, l: Grip<S>): Seen {
    Seen(l.arm.now, map[g.joint := l.setpoint], map[g.joint := l.position])
  }

  /** A pass that read the jaws. */
  predicate IsJawReading(ending: Option<GripEnding>) {
    ending.None? || ending.value.ReachedTarget? || ending.value.GripStalled? || ending.value.TooClosed? || ending.value.Contact?
  }

  /** All a grip's loop sees from here on. */
  function AllJawsSeen<S>(p: ArmProfile, g: GripperProfile, d: Driver<S>, grasp: bool, start: real, target: real,
                          deadline: real, l: Grip<S>): seq<Seen>
    requires 0.0 < p.period && g.joint in p.Names()
    decreases PassesLeft(l.arm.now, deadline, p.period)
  {
    var (next, ending) := GripPass(p, g, d, grasp, start, target, deadline, l);
    if ending.None? then
      OnePassLess(l.arm.now, deadline, p.period);
      [JawsSeen(g, next)] + AllJawsSeen(p, g, d, grasp, start, target, deadline, next)
    else if IsJawReading(ending) then [JawsSeen(g, next)]
    else []
  }

  predicate HasReached(g: GripperProfile, target: real, s: Seen) {
    At(s.setpoint, g.joint) == target && Abs(At(s.positions, g.joint) - target) <= g.tolerance
  }

  /** What jaws stuck there come to: a stall of a release or of a grasp that never got
      going, closed on too little, or on an object. */
  function StuckAs(p: ArmProfile, g: GripperProfile, grasp: bool, start: real, position: real): GripEnding {
    if grasp && Abs(position - start) >= p.stallMinProgress
    then (if g.Gap(position) >= g.minGap then Contact else TooClosed)
    else GripStalled
  }

  /** Reading by reading: the jaws go on only short of the target and going, and end at the
      target or stuck. */
  ghost predicate GripRightlyEnds(p: ArmProfile, g: GripperProfile, grasp: bool, start: real, target: real, seen: seq<Seen>,
                                  rest: seq<Seen>, ending: GripEnding)
    decreases |rest|
  {
    if rest == [] then !IsJawReading(Some(ending))
    else
      var now := seen + [rest[0]];
      if |rest| == 1 && IsJawReading(Some(ending)) then
        if HasReached(g, target, rest[0]) then ending.ReachedTarget?
        else IsStuck(p, g.tolerance, now, g.joint) && ending == StuckAs(p, g, grasp, start, At(rest[0].positions, g.joint))
      else
        && !HasReached(g, target, rest[0]) && IsGoing(p, g.tolerance, now, g.joint)
        && GripRightlyEnds(p, g, grasp, start, target, now, rest[1..], ending)
  }

  ghost predicate JawsTrack<S>(p: ArmProfile, g: GripperProfile, seen: seq<Seen>, l: Grip<S>) {
    && seen != [] && seen[|seen| - 1] == JawsSeen(g, l)
    && HasMark(p, ReadingsOf(seen, g.joint), Reading(l.progressAt, l.reference))
  }

  lemma GripPassReads<S>(p: ArmProfile, g: GripperProfile, d: Driver<S>, grasp: bool, start: real, target: real, deadline: real,
                         l: Grip<S>)
    requires g.joint in p.Names()
    ensures var (next, ending) := GripPass(p, g, d, grasp, start, target, deadline, l);
            var reading, mark := Reading(next.arm.now, next.position), Reading(l.progressAt, l.reference);
            IsJawReading(ending) ==>
              && Reading(next.progressAt, next.reference)
                 == (if Abs(reading.position - mark.position) >= p.stallMinProgress then reading else mark)
              && ending == JudgeGrip(p, g, grasp, start, target, next)
  {
    hide ReadPose, JudgeGrip, Toward;
  }

  lemma JawsTrackOn<S>(p: ArmProfile, g: GripperProfile, seen: seq<Seen>, l: Grip<S>, next: Grip<S>)
    requires 0.0 < p.stallMinProgress && JawsTrack(p, g, seen, l)
    requires var reading, mark := Reading(next.arm.now, next.position), Reading(l.progressAt, l.reference);
             Reading(next.progressAt, next.reference)
             == (if Abs(reading.position - mark.position) >= p.stallMinProgress then reading else mark)
    ensures JawsTrack(p, g, seen + [JawsSeen(g, next)], next)
  {
    hide IsMark;
    var readings, mark := ReadingsOf(seen, g.joint), Reading(l.progressAt, l.reference);
    var k :| 0 <= k < |readings| && IsMark(readings, k, p.stallMinProgress, mark);
    var reading := Reading(next.arm.now, next.position);
    var j := MarkNext(readings, k, p.stallMinProgress, mark, reading);
    MarkIsReading(readings + [reading], j, p.stallMinProgress, Reading(next.progressAt, next.reference));
    assert ReadingsOf(seen + [JawsSeen(g, next)], g.joint) == readings + [reading];
  }

  lemma TrackedJawsAreStuck<S>(p: ArmProfile, g: GripperProfile, seen: seq<Seen>, l: Grip<S>)
    requires JawsTrack(p, g, seen, l)
    ensures if JawsStopped(p, g, l) then IsStuck(p, g.tolerance, seen, g.joint) else IsGoing(p, g.tolerance, seen, g.joint)
  {
    hide IsMark, NoProgressFor, ProgressWithin;
    var readings, mark := ReadingsOf(seen, g.joint), Reading(l.progressAt, l.reference);
    var k :| 0 <= k < |readings| && IsMark(readings, k, p.stallMinProgress, mark);
    MarkTells(readings, k, p.stallWindow, p.stallMinProgress, mark);
    assert readings[|readings| - 1].at == l.arm.now;
  }

  lemma {:induction false} GripLoopEndsRightly<S>(p: ArmProfile, g: GripperProfile, d: Driver<S>, grasp: bool, start: real,
                                                  target: real, deadline: real, l: Grip<S>, seen: seq<Seen>)
    requires 0.0 < p.period && 0.0 < p.stallMinProgress && g.joint in p.Names() && JawsTrack(p, g, seen, l)
    ensures GripRightlyEnds(p, g, grasp, start, target, seen, AllJawsSeen(p, g, d, grasp, start, target, deadline, l),
                            GripLooped(p, g, d, grasp, start, target, deadline, l).1)
    decreases PassesLeft(l.arm.now, deadline, p.period)
  {
    hide GripPass, PassesLeft, JawsTrack, IsStuck, IsGoing, JawsStopped;
    var (next, ending) := GripPass(p, g, d, grasp, start, target, deadline, l);
    if IsJawReading(ending) {
      GripPassReads(p, g, d, grasp, start, target, deadline, l);
      JawsTrackOn(p, g, seen, l, next);
      TrackedJawsAreStuck(p, g, seen + [JawsSeen(g, next)], next);
      if ending.None? {
        OnePassLess(l.arm.now, deadline, p.period);
        GripLoopEndsRightly(p, g, d, grasp, start, target, deadline, next, seen + [JawsSeen(g, next)]);
        var rest := AllJawsSeen(p, g, d, grasp, start, target, deadline, next);
        assert ([JawsSeen(g, next)] + rest)[1..] == rest;
      }
    }
  }

  /** Over any bus the jaws' loop ends by a reading at the target, or else at the first by
      which they stood short of their setpoint for the window, as what they are stuck at:
      an object only when they had closed by some progress and not to less than its least
      width. */
  lemma GripStallsRightly<S>(p: ArmProfile, g: GripperProfile, d: Driver<S>, grasp: bool, start: real, target: real,
                             deadline: real, a: Arm<S>)
    requires p.Valid() && g.joint in p.Names()
    ensures var l := Grip(a, start, start, a.now, start);
            GripRightlyEnds(p, g, grasp, start, target, [JawsSeen(g, l)],
                            AllJawsSeen(p, g, d, grasp, start, target, deadline, l),
                            GripLooped(p, g, d, grasp, start, target, deadline, l).1)
  {
    var l := Grip(a, start, start, a.now, start);
    FirstMark(Reading(a.now, start), p.stallMinProgress);
    assert ReadingsOf([JawsSeen(g, l)], g.joint) == [Reading(a.now, start)];
    GripLoopEndsRightly(p, g, d, grasp, start, target, deadline, l, [JawsSeen(g, l)]);
  }
}
