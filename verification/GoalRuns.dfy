/** Whole runs of one connection: which result may answer a call whose goal is being
    replaced (flyto_robotics/generic_ros2_adapter.py).

    A run interleaves, in any order, what the reader thread does with messages, what
    scans decide, and what each call's own thread does: slow down, learn whether the
    send failed, take a result and forget the call. One thread waits on a call. */
module GoalRuns {
  import opened Wrappers
  import opened Decimal
  import opened GoalReplacement

  datatype Event =
    | Start(call: string, guard: Option<Guard>)
    | Arrives(m: Message)
    | ScanAllows(call: string, allowed: real)
    | Trips(call: string)
    | SlowDown(call: string, travelled: real)
    | SendEnds(call: string, sent: bool)
    | Answer(call: string)
    | Close(call: string)

  /** What a reader of the run's history sees. */
  datatype Entry =
    | Began(call: string, goal: string, travelled: real, resend: Resend)
    | Sent(call: string, goal: string)
    | SendFailed(call: string, goal: string)
    | Stored(call: string, m: Message)
    | Answered(call: string, m: Message)
    | Closed(call: string)

  datatype Session = Session(goals: Goals, sending: map<string, Pending>, started: set<string>, waiting: set<string>,
                             log: seq<Entry>)

  // ---------------------------------------------------------------------------
  // Steps
  // ---------------------------------------------------------------------------

  predicate MarkAt(call: string, i: nat) {
    i + |SLOW_MARK| <= |call| && call[i..i + |SLOW_MARK|] == SLOW_MARK
  }

  predicate HasMark(call: string) {
    exists i :: 0 <= i < |call| && MarkAt(call, i)
  }

  /** A guard as it is armed: its first speed recorded, nothing slower due. */
  predicate Fresh(guard: Guard) {
    guard.slowTo.None? && |guard.changes| == 1 && guard.changes[0].speed == guard.speed
  }

  function StoredEntries(s: Goals, m: Message): seq<Entry> {
    if m.op.ActionResult? && m.id.Some? && Current(s, Owner(s, m.id.value)) == m.id.value
    then [Stored(Owner(s, m.id.value), m)] else []
  }

  function Next(s: Session, e: Event): Option<Session> {
    match e
    case Start(call, guard) =>
      if call in s.started || HasMark(call) || (guard.Some? && !Fresh(guard.value)) then None
      else
        Some(s.(goals := s.goals.(active := s.goals.active + {call},
                                  guards := if guard.Some? then s.goals.guards[call := guard.value] else s.goals.guards),
                started := s.started + {call}, waiting := s.waiting + {call}))
    case Arrives(m) => Some(s.(goals := Handled(s.goals, m), log := s.log + StoredEntries(s.goals, m)))
    case ScanAllows(call, allowed) => if call in s.started then Some(s.(goals := Slower(s.goals, call, allowed))) else None
    case Trips(call) => if call in s.started then Some(s.(goals := Tripped(s.goals, call))) else None
    case SlowDown(call, travelled) =>
      if call !in s.waiting || call in s.sending then None
      else
        var (after, pending) := Begun(s.goals, call, travelled);
        if pending.None? then Some(s.(goals := after))
        else Some(s.(goals := after, sending := s.sending[call := pending.value],
                     log := s.log + [Began(call, pending.value.goal, travelled, pending.value.resend)]))
    case SendEnds(call, sent) =>
      if call !in s.sending then None
      else
        var pending := s.sending[call];
        if sent then Some(s.(sending := s.sending - {call}, log := s.log + [Sent(call, pending.goal)]))
        else Some(s.(goals := RolledBack(s.goals, call, pending), sending := s.sending - {call},
                     log := s.log + [SendFailed(call, pending.goal)]))
    case Answer(call) =>
      if call !in s.waiting || call in s.sending || call !in s.goals.results then None
      else Some(s.(goals := Taken(s.goals, call).0, waiting := s.waiting - {call},
                   log := s.log + [Answered(call, s.goals.results[call])]))
    case Close(call) =>
      if call !in s.started || call in s.waiting || call in s.sending then None
      else Some(s.(goals := Forgotten(s.goals, call), log := s.log + [Closed(call)]))
  }

  function Run(s: Session, events: seq<Event>): Option<Session>
    decreases |events|
  {
    if events == [] then Some(s)
    else
      var next := Next(s, events[0]);
      if next.None? then None else Run(next.value, events[1..])
  }

  function NewSession(): Session {
    Session(Goals(map[], map[], map[], map[], [], map[], {}), map[], {}, {}, [])
  }

  // ---------------------------------------------------------------------------
  // Reading the history
  // ---------------------------------------------------------------------------

  function LineAfter(call: string, line: seq<string>, e: Entry): (after: seq<string>)
    requires |line| >= 1 && line[0] == call
    ensures |after| >= 1 && after[0] == call
  {
    match e
    case Began(c, goal, _, _) => if c == call then line + [goal] else line
    case SendFailed(c, _) => if c == call && |line| > 1 then line[..|line| - 1] else line
    case Closed(c) => if c == call then [call] else line
    case _ => line
  }

  /** A call's goals so far: the first, then every replacement whose send has not
      failed. */
  function Line(call: string, log: seq<Entry>): (line: seq<string>)
    ensures |line| >= 1 && line[0] == call
  {
    if log == [] then [call] else LineAfter(call, Line(call, log[..|log| - 1]), log[|log| - 1])
  }

  /** The goal driving a call, by the history. */
  function Driving(call: string, log: seq<Entry>): string {
    Line(call, log)[|Line(call, log)| - 1]
  }

  function ReachedAfter(call: string, reached: string, e: Entry): string {
    match e
    case Sent(c, goal) => if c == call then goal else reached
    case Closed(c) => if c == call then call else reached
    case _ => reached
  }

  /** The last goal whose send is known to have reached the server. */
  function Reached(call: string, log: seq<Entry>): string {
    if log == [] then call else ReachedAfter(call, Reached(call, log[..|log| - 1]), log[|log| - 1])
  }

  lemma LogNext(call: string, log: seq<Entry>, e: Entry)
    ensures Line(call, log + [e]) == LineAfter(call, Line(call, log), e)
    ensures Reached(call, log + [e]) == ReachedAfter(call, Reached(call, log), e)
  {
    assert (log + [e])[..|log|] == log;
  }

  // ---------------------------------------------------------------------------
  // Replacement ids
  // ---------------------------------------------------------------------------

  /** Ids of unmarked calls are told apart: by call, and by number. */
  lemma SlowIdsDistinct(c: string, m: nat, d: string, n: nat)
    requires !HasMark(c) && !HasMark(d) && SlowId(c, m) == SlowId(d, n)
    ensures c == d && m == n
  {
    if |c| < |d| {
      MarkInside(c, m, d, n);
    } else if |d| < |c| {
      MarkInside(d, n, c, m);
    } else {
      var s := SlowId(c, m);
      assert s[..|c|] == c && s[..|d|] == d;
      assert s[|c| + |SLOW_MARK|..] == ToDecimal(m) && s[|d| + |SLOW_MARK|..] == ToDecimal(n);
      DecimalInjective(m, n);
    }
  }

  /** A mark does not overlap itself. */
  lemma MarksDoNotOverlap(c: string, m: nat, d: string, n: nat)
    requires |c| < |d| < |c| + |SLOW_MARK|
    ensures SlowId(c, m) != SlowId(d, n)
  {
    var gap := |d| - |c|;
    assert SlowId(c, m) == c + (SLOW_MARK + ToDecimal(m)) && SlowId(d, n) == d + (SLOW_MARK + ToDecimal(n));
    assert SlowId(d, n)[|d|] == SLOW_MARK[0];
    assert |SlowId(c, m)| > |c| + gap && SlowId(c, m)[|c| + gap] == SLOW_MARK[gap];
    assert SLOW_MARK[gap] != '#';
  }

  /** So the shorter call's mark would lie in the longer call. */
  lemma MarkInside(c: string, m: nat, d: string, n: nat)
    requires |c| < |d| && SlowId(c, m) == SlowId(d, n)
    ensures HasMark(d)
  {
    var s := SlowId(c, m);
    assert |SLOW_MARK| <= |d| - |c| by {
      if |d| - |c| < |SLOW_MARK| {
        MarksDoNotOverlap(c, m, d, n);
      }
    }
    assert s == c + (SLOW_MARK + ToDecimal(m)) == d + (SLOW_MARK + ToDecimal(n));
    assert s[|c|..|c| + |SLOW_MARK|] == SLOW_MARK && d == s[..|d|];
    assert MarkAt(d, |c|);
  }

  lemma SlowIdIsMarked(c: string, n: nat)
    ensures HasMark(SlowId(c, n)) && SlowId(c, n) != c
  {
    var s := SlowId(c, n);
    assert s == c + (SLOW_MARK + ToDecimal(n));
    assert MarkAt(s, |c|);
  }

  // ---------------------------------------------------------------------------
  // What every step keeps
  // ---------------------------------------------------------------------------

  /** How many replacement numbers of a call are used up. */
  function Count(s: Session, call: string): nat {
    if call in s.goals.guards then |s.goals.guards[call].changes| else 0
  }

  predicate Numbered(call: string, goal: string, bound: nat) {
    exists n: nat :: n < bound && goal == SlowId(call, n)
  }

  /** The line of a call has an owner for every replacement, no two alike. */
  ghost predicate LineOwned(s: Session, c: string) {
    var line := Line(c, s.log);
    && (forall k :: 1 <= k < |line| ==> line[k] in s.goals.owner && s.goals.owner[line[k]] == c)
    && (forall k :: 1 <= k < |line| ==> Numbered(c, line[k], Count(s, c)))
    && (forall j, k :: 1 <= j < k < |line| ==> line[j] != line[k])
  }

  /** The books name the goal the history says is driving, and a send in flight is
      of the last goal of the line. */
  ghost predicate BooksRight(s: Session, c: string) {
    var line := Line(c, s.log);
    && Current(s.goals, c) == line[|line| - 1]
    && (if c in s.sending then
          && |line| >= 2 && s.sending[c].goal == line[|line| - 1] && s.sending[c].previous == line[|line| - 2]
          && Reached(c, s.log) == line[|line| - 2] && c in s.waiting
        else Reached(c, s.log) == line[|line| - 1])
    && (c in s.waiting ==> c in s.started)
    && (c in s.started ==> !HasMark(c))
    && (c !in s.started ==> line == [c] && c !in s.goals.guards)
  }

  /** A stored result came from the goal driving its call when it was handled. */
  ghost predicate CameFromDriver(log: seq<Entry>, c: string, m: Message) {
    exists j :: 0 <= j < |log| && log[j] == Stored(c, m) && m.id == Some(Driving(c, log[..j]))
  }

  ghost predicate ResultsRight(s: Session) {
    forall c :: c in s.goals.results ==> CameFromDriver(s.log, c, s.goals.results[c])
  }

  ghost predicate AnswersRight(log: seq<Entry>) {
    forall i :: 0 <= i < |log| && log[i].Answered? ==> CameFromDriver(log[..i], log[i].call, log[i].m)
  }

  ghost predicate OwnersNumbered(s: Session) {
    forall g :: g in s.goals.owner ==>
      s.goals.owner[g] in s.started && Numbered(s.goals.owner[g], g, Count(s, s.goals.owner[g]))
  }

  /** Every replacement ever begun has a number of its call's, and no two are alike. */
  ghost predicate IdsOnce(s: Session) {
    && (forall i :: 0 <= i < |s.log| && s.log[i].Began? ==>
          s.log[i].call in s.started && Numbered(s.log[i].call, s.log[i].goal, Count(s, s.log[i].call)))
    && (forall i, j :: 0 <= i < j < |s.log| && s.log[i].Began? && s.log[j].Began? ==> s.log[i].goal != s.log[j].goal)
  }

  ghost predicate Inv(s: Session) {
    && (forall c :: LineOwned(s, c)) && (forall c :: BooksRight(s, c))
    && ResultsRight(s) && AnswersRight(s.log) && OwnersNumbered(s) && IdsOnce(s)
  }

  lemma NumberedGrows(call: string, goal: string, m: nat, n: nat)
    requires Numbered(call, goal, m) && m <= n
    ensures Numbered(call, goal, n)
  {
  }

  /** A number not yet used makes an id not yet used. */
  lemma NewIdIsNew(call: string, n: nat, other: string, goal: string, bound: nat)
    requires !HasMark(call) && !HasMark(other) && Numbered(other, goal, bound) && (other == call ==> bound <= n)
    ensures goal != SlowId(call, n)
  {
    var k: nat :| k < bound && goal == SlowId(other, k);
    if goal == SlowId(call, n) {
      SlowIdsDistinct(other, k, call, n);
    }
  }

  /** A step that leaves the books, the lines and the numbers alone. */
  lemma QuietStep(s: Session, t: Session)
    requires Inv(s)
    requires t.goals.ids == s.goals.ids && t.goals.owner == s.goals.owner && t.sending == s.sending && t.log == s.log
    requires t.goals.results == s.goals.results && s.started <= t.started && t.waiting <= t.started
    requires (forall c :: c in s.sending ==> c in t.waiting) && (forall c :: c in t.started ==> !HasMark(c))
    requires (forall c :: Count(s, c) <= Count(t, c)) && (forall c :: c in t.goals.guards ==> c in t.started)
    ensures Inv(t)
  {
    hide Numbered, HasMark;
    forall c
      ensures LineOwned(t, c) && BooksRight(t, c)
    {
      assert LineOwned(s, c) && BooksRight(s, c);
      forall k | 1 <= k < |Line(c, t.log)|
        ensures Numbered(c, Line(c, t.log)[k], Count(t, c))
      {
        NumberedGrows(c, Line(c, s.log)[k], Count(s, c), Count(t, c));
      }
    }
    forall g | g in t.goals.owner
      ensures Numbered(t.goals.owner[g], g, Count(t, t.goals.owner[g]))
    {
      NumberedGrows(s.goals.owner[g], g, Count(s, s.goals.owner[g]), Count(t, s.goals.owner[g]));
    }
    forall i | 0 <= i < |t.log| && t.log[i].Began?
      ensures Numbered(t.log[i].call, t.log[i].goal, Count(t, t.log[i].call))
    {
      NumberedGrows(s.log[i].call, s.log[i].goal, Count(s, s.log[i].call), Count(t, s.log[i].call));
    }
  }

  lemma CameStays(log: seq<Entry>, e: Entry, c: string, m: Message)
    requires CameFromDriver(log, c, m)
    ensures CameFromDriver(log + [e], c, m)
  {
    var j :| 0 <= j < |log| && log[j] == Stored(c, m) && m.id == Some(Driving(c, log[..j]));
    assert (log + [e])[..j] == log[..j] && (log + [e])[j] == log[j];
  }

  lemma AnswersStay(log: seq<Entry>, e: Entry)
    requires AnswersRight(log) && (e.Answered? ==> CameFromDriver(log, e.call, e.m))
    ensures AnswersRight(log + [e])
  {
    hide CameFromDriver;
    forall i | 0 <= i < |log + [e]| && (log + [e])[i].Answered?
      ensures CameFromDriver((log + [e])[..i], (log + [e])[i].call, (log + [e])[i].m)
    {
      assert (log + [e])[..i] == log[..i];
      assert log[..|log|] == log;
    }
  }

  /** An entry about one call leaves the books of the others alone. */
  lemma OthersUntouched(s: Session, t: Session, e: Entry, c: string)
    requires LineOwned(s, c) && BooksRight(s, c)
    requires t.log == s.log + [e] && LineAfter(c, Line(c, s.log), e) == Line(c, s.log)
    requires ReachedAfter(c, Reached(c, s.log), e) == Reached(c, s.log)
    requires Current(t.goals, c) == Current(s.goals, c) && (c in t.sending <==> c in s.sending)
    requires (c in s.sending ==> t.sending[c] == s.sending[c] && c in t.waiting) && (c in t.waiting ==> c in t.started)
    requires t.started == s.started && Count(s, c) == Count(t, c) && (c in t.goals.guards ==> c in s.goals.guards)
    requires forall g :: g in s.goals.owner && s.goals.owner[g] == c ==> g in t.goals.owner && t.goals.owner[g] == c
    ensures LineOwned(t, c) && BooksRight(t, c)
  {
    hide Numbered, HasMark, Line, Reached;
    LogNext(c, s.log, e);
  }

  /** What else a step that begins nothing must keep. */
  lemma IdsStay(s: Session, t: Session, e: Entry)
    requires IdsOnce(s) && t.log == s.log + [e] && !e.Began? && t.started == s.started
    requires forall c :: Count(s, c) == Count(t, c)
    ensures IdsOnce(t)
  {
    hide Numbered;
    forall i | 0 <= i < |t.log| && t.log[i].Began?
      ensures t.log[i] == s.log[i]
    {
    }
  }

  lemma OwnersStay(s: Session, t: Session)
    requires OwnersNumbered(s) && t.started == s.started && (forall c :: Count(s, c) == Count(t, c))
    requires forall g :: g in t.goals.owner ==> g in s.goals.owner && t.goals.owner[g] == s.goals.owner[g]
    ensures OwnersNumbered(t)
  {
    hide Numbered;
  }

  lemma ArrivesKeeps(s: Session, m: Message)
    requires Inv(s)
    ensures Inv(Next(s, Arrives(m)).value)
  {
    hide Line, Reached, Numbered, HasMark, CameFromDriver, LineOwned, BooksRight, IdsOnce, OwnersNumbered, AnswersRight;
    var t := Next(s, Arrives(m)).value;
    if StoredEntries(s.goals, m) == [] {
      assert t.log == s.log;
      NothingStored(s, t, m);
    } else {
      var c := Owner(s.goals, m.id.value);
      var e := Stored(c, m);
      StoredKeeps(s, t, c, m);
    }
  }

  lemma NothingStored(s: Session, t: Session, m: Message)
    requires Inv(s) && Next(s, Arrives(m)) == Some(t) && StoredEntries(s.goals, m) == [] && t.log == s.log
    ensures Inv(t)
  {
    hide Line, Reached, Numbered, HasMark, CameFromDriver;
    forall c
      ensures LineOwned(t, c) && BooksRight(t, c)
    {
      assert LineOwned(s, c) && BooksRight(s, c);
    }
    assert OwnersNumbered(t);
    assert IdsOnce(t);
  }

  lemma StoredKeeps(s: Session, t: Session, c: string, m: Message)
    requires Inv(s) && Next(s, Arrives(m)) == Some(t) && StoredEntries(s.goals, m) == [Stored(c, m)]
    ensures Inv(t)
  {
    hide Line, Reached, Numbered, HasMark, CameFromDriver, LineOwned, BooksRight, IdsOnce, OwnersNumbered, AnswersRight;
    var e := Stored(c, m);
    assert t.goals == s.goals.(results := s.goals.results[c := m]);
    forall d
      ensures LineOwned(t, d) && BooksRight(t, d)
    {
      assert LineOwned(s, d) && BooksRight(s, d);
      WaitersStarted(s, d);
      OthersUntouched(s, t, e, d);
    }
    assert BooksRight(s, c);
    StoredFromDriver(s, c, m);
    forall d | d in t.goals.results
      ensures CameFromDriver(t.log, d, t.goals.results[d])
    {
      if d != c {
        CameStays(s.log, e, d, s.goals.results[d]);
      }
    }
    AnswersStay(s.log, e);
    OwnersStay(s, t);
    IdsStay(s, t, e);
  }

  lemma WaitersStarted(s: Session, c: string)
    requires BooksRight(s, c)
    ensures c in s.waiting ==> c in s.started
    ensures c in s.sending ==> c in s.waiting
  {
  }

  lemma StoredFromDriver(s: Session, c: string, m: Message)
    requires BooksRight(s, c) && m.id == Some(Current(s.goals, c))
    ensures CameFromDriver(s.log + [Stored(c, m)], c, m)
  {
    hide Line;
    var log := s.log + [Stored(c, m)];
    assert log[|s.log|] == Stored(c, m) && log[..|s.log|] == s.log;
  }

  lemma AnswerKeeps(s: Session, call: string)
    requires Inv(s) && Next(s, Answer(call)).Some?
    ensures Inv(Next(s, Answer(call)).value)
  {
    hide Line, Reached, Numbered, HasMark, CameFromDriver, LineOwned, BooksRight, IdsOnce, OwnersNumbered, AnswersRight;
    var t := Next(s, Answer(call)).value;
    var e := Answered(call, s.goals.results[call]);
    forall d
      ensures LineOwned(t, d) && BooksRight(t, d)
    {
      assert LineOwned(s, d) && BooksRight(s, d);
      WaitersStarted(s, d);
      OthersUntouched(s, t, e, d);
    }
    forall d | d in t.goals.results
      ensures CameFromDriver(t.log, d, t.goals.results[d])
    {
      CameStays(s.log, e, d, s.goals.results[d]);
    }
    AnswersStay(s.log, e);
    OwnersStay(s, t);
    IdsStay(s, t, e);
  }

  lemma SentKeeps(s: Session, call: string)
    requires Inv(s) && Next(s, SendEnds(call, true)).Some?
    ensures Inv(Next(s, SendEnds(call, true)).value)
  {
    hide Line, Reached, Numbered, HasMark, CameFromDriver, LineOwned, BooksRight, IdsOnce, OwnersNumbered, AnswersRight;
    var t := Next(s, SendEnds(call, true)).value;
    var e := Sent(call, s.sending[call].goal);
    forall d
      ensures LineOwned(t, d) && BooksRight(t, d)
    {
      assert LineOwned(s, d) && BooksRight(s, d);
      WaitersStarted(s, d);
      if d == call {
        SentOwn(s, t, call);
      } else {
        OthersUntouched(s, t, e, d);
      }
    }
    forall d | d in t.goals.results
      ensures CameFromDriver(t.log, d, t.goals.results[d])
    {
      CameStays(s.log, e, d, s.goals.results[d]);
    }
    AnswersStay(s.log, e);
    OwnersStay(s, t);
    IdsStay(s, t, e);
  }

  lemma SentOwn(s: Session, t: Session, call: string)
    requires LineOwned(s, call) && BooksRight(s, call) && Next(s, SendEnds(call, true)) == Some(t)
    ensures LineOwned(t, call) && BooksRight(t, call)
  {
    hide Line, Reached, Numbered, HasMark;
    LogNext(call, s.log, Sent(call, s.sending[call].goal));
  }

  lemma FailedKeeps(s: Session, call: string)
    requires Inv(s) && Next(s, SendEnds(call, false)).Some?
    ensures Inv(Next(s, SendEnds(call, false)).value)
  {
    hide Line, Reached, Numbered, HasMark, CameFromDriver, LineOwned, BooksRight, IdsOnce, OwnersNumbered, AnswersRight;
    var t := Next(s, SendEnds(call, false)).value;
    var goal := s.sending[call].goal;
    var e := SendFailed(call, goal);
    assert LineOwned(s, call) && BooksRight(s, call);
    GoalIsCalls(s, call);
    forall d
      ensures LineOwned(t, d) && BooksRight(t, d)
    {
      assert LineOwned(s, d) && BooksRight(s, d);
      WaitersStarted(s, d);
      if d == call {
        FailedOwn(s, t, call);
      } else {
        OthersUntouched(s, t, e, d);
      }
    }
    forall d | d in t.goals.results
      ensures CameFromDriver(t.log, d, t.goals.results[d])
    {
      CameStays(s.log, e, d, s.goals.results[d]);
    }
    AnswersStay(s.log, e);
    OwnersStay(s, t);
    IdsStay(s, t, e);
  }

  lemma GoalIsCalls(s: Session, call: string)
    requires LineOwned(s, call) && BooksRight(s, call) && call in s.sending
    ensures var goal := s.sending[call].goal; goal in s.goals.owner && s.goals.owner[goal] == call
  {
    hide Line, Reached, Numbered;
  }

  lemma FailedOwn(s: Session, t: Session, call: string)
    requires LineOwned(s, call) && BooksRight(s, call) && Next(s, SendEnds(call, false)) == Some(t)
    ensures LineOwned(t, call) && BooksRight(t, call)
  {
    hide Line, Reached, Numbered, HasMark;
    LogNext(call, s.log, SendFailed(call, s.sending[call].goal));
    var line := Line(call, s.log);
    assert Line(call, t.log) == line[..|line| - 1];
  }

  lemma CloseKeeps(s: Session, call: string)
    requires Inv(s) && Next(s, Close(call)).Some?
    ensures Inv(Next(s, Close(call)).value)
  {
    hide Line, Reached, Numbered, HasMark, CameFromDriver, LineOwned, BooksRight, IdsOnce, OwnersNumbered, AnswersRight;
    var t := Next(s, Close(call)).value;
    var e := Closed(call);
    forall d
      ensures LineOwned(t, d) && BooksRight(t, d)
    {
      assert LineOwned(s, d) && BooksRight(s, d);
      WaitersStarted(s, d);
      if d == call {
        ClosedOwn(s, t, call);
      } else {
        OthersUntouched(s, t, e, d);
      }
    }
    forall d | d in t.goals.results
      ensures CameFromDriver(t.log, d, t.goals.results[d])
    {
      CameStays(s.log, e, d, s.goals.results[d]);
    }
    AnswersStay(s.log, e);
    OwnersStay(s, t);
    IdsStay(s, t, e);
  }

  lemma ClosedOwn(s: Session, t: Session, call: string)
    requires BooksRight(s, call) && Next(s, Close(call)) == Some(t)
    ensures LineOwned(t, call) && BooksRight(t, call)
  {
    hide Line, Reached, Numbered, HasMark;
    LogNext(call, s.log, Closed(call));
  }

  /** A replacement that begins: the next number of its call. */
  lemma BeginKeeps(s: Session, call: string, travelled: real)
    requires Inv(s) && Next(s, SlowDown(call, travelled)).Some? && Begun(s.goals, call, travelled).1.Some?
    ensures Inv(Next(s, SlowDown(call, travelled)).value)
  {
    hide Line, Reached, Numbered, HasMark, CameFromDriver, LineOwned, BooksRight, IdsOnce, OwnersNumbered, AnswersRight, Begun;
    var t := Next(s, SlowDown(call, travelled)).value;
    var n := Count(s, call);
    var goal := SlowId(call, n);
    var e := Began(call, goal, travelled, Begun(s.goals, call, travelled).1.value.resend);
    BegunIs(s.goals, call, travelled);
    assert LineOwned(s, call) && BooksRight(s, call);
    WaitersStarted(s, call);
    UnmarkedWhenStarted(s, call);
    forall g | g in s.goals.owner
      ensures g != goal
    {
      NotAnOwnedId(s, call, g);
    }
    forall d
      ensures LineOwned(t, d) && BooksRight(t, d)
    {
      assert LineOwned(s, d) && BooksRight(s, d);
      WaitersStarted(s, d);
      if d == call {
        BegunOwn(s, t, call, e, t.sending[call]);
      } else {
        OthersUntouched(s, t, e, d);
      }
    }
    forall d | d in t.goals.results
      ensures CameFromDriver(t.log, d, t.goals.results[d])
    {
      CameStays(s.log, e, d, s.goals.results[d]);
    }
    AnswersStay(s.log, e);
    OwnersGain(s, t, call, n);
    IdsGain(s, t, call, n, e);
  }

  lemma BegunIs(s: Goals, call: string, travelled: real)
    requires Begun(s, call, travelled).1.Some?
    ensures call in s.guards && call in s.active
    ensures var (after, pending) := Begun(s, call, travelled);
            var n := |s.guards[call].changes|;
            var goal := SlowId(call, n);
            && pending.value.goal == goal && pending.value.previous == Current(s, call)
            && after.ids == s.ids[call := goal] && after.owner == s.owner[goal := call] && after.results == s.results
            && after.guards.Keys == s.guards.Keys && |after.guards[call].changes| == n + 1
            && forall c :: c in s.guards && c != call ==> after.guards[c] == s.guards[c]
  {
  }

  lemma UnmarkedWhenStarted(s: Session, c: string)
    requires BooksRight(s, c) && c in s.started
    ensures !HasMark(c)
  {
  }

  lemma NotAnOwnedId(s: Session, call: string, g: string)
    requires Inv(s) && call in s.started && g in s.goals.owner
    ensures g != SlowId(call, Count(s, call))
  {
    hide Line, Reached, Numbered, HasMark, CameFromDriver, IdsOnce, AnswersRight, LineOwned;
    var c := s.goals.owner[g];
    assert BooksRight(s, c) && BooksRight(s, call);
    NewIdIsNew(call, Count(s, call), c, g, Count(s, c));
  }

  predicate IsBegin(e: Entry, call: string, goal: string) {
    e.Began? && e.call == call && e.goal == goal
  }

  lemma BegunOwn(s: Session, t: Session, call: string, e: Entry, pending: Pending)
    requires LineOwned(s, call) && BooksRight(s, call) && call !in s.sending && call in s.waiting && !HasMark(call)
    requires var goal := SlowId(call, Count(s, call));
             && IsBegin(e, call, goal) && t.log == s.log + [e]
             && t.goals.ids == s.goals.ids[call := goal] && t.goals.owner == s.goals.owner[goal := call]
             && pending.goal == goal && pending.previous == Current(s.goals, call)
             && t.sending == s.sending[call := pending]
    requires t.started == s.started && t.waiting == s.waiting && Count(t, call) == Count(s, call) + 1
    requires call in t.goals.guards ==> call in s.goals.guards
    ensures LineOwned(t, call) && BooksRight(t, call)
  {
    hide Line, Reached, Numbered, HasMark;
    var n := Count(s, call);
    var goal := SlowId(call, n);
    LogNext(call, s.log, e);
    var line, longer := Line(call, s.log), Line(call, t.log);
    assert longer == line + [goal];
    IsNumbered(call, n);
    forall k | 1 <= k < |line|
      ensures Numbered(call, line[k], n + 1) && line[k] != goal
    {
      NumberedGrows(call, line[k], n, n + 1);
      NewIdIsNew(call, n, call, line[k], n);
    }
  }

  lemma IsNumbered(call: string, n: nat)
    ensures Numbered(call, SlowId(call, n), n + 1)
  {
  }

  lemma OwnersGain(s: Session, t: Session, call: string, n: nat)
    requires OwnersNumbered(s) && t.started == s.started && call in s.started && Count(s, call) == n && Count(t, call) == n + 1
    requires forall c :: c != call ==> Count(t, c) == Count(s, c)
    requires t.goals.owner == s.goals.owner[SlowId(call, n) := call]
    ensures OwnersNumbered(t)
  {
    hide Numbered;
    IsNumbered(call, n);
    forall g | g in t.goals.owner
      ensures t.goals.owner[g] in t.started && Numbered(t.goals.owner[g], g, Count(t, t.goals.owner[g]))
    {
      if g != SlowId(call, n) {
        NumberedGrows(s.goals.owner[g], g, Count(s, s.goals.owner[g]), Count(t, s.goals.owner[g]));
      }
    }
  }

  lemma IdsGain(s: Session, t: Session, call: string, n: nat, e: Entry)
    requires Inv(s) && t.started == s.started && call in s.started && Count(s, call) == n && Count(t, call) == n + 1
    requires forall c :: c != call ==> Count(t, c) == Count(s, c)
    requires IsBegin(e, call, SlowId(call, n)) && t.log == s.log + [e]
    ensures IdsOnce(t)
  {
    hide Numbered, HasMark, Line, Reached, LineOwned, CameFromDriver, AnswersRight, OwnersNumbered;
    var goal := SlowId(call, n);
    IsNumbered(call, n);
    assert BooksRight(s, call);
    forall i | 0 <= i < |s.log| && s.log[i].Began?
      ensures Numbered(s.log[i].call, s.log[i].goal, Count(t, s.log[i].call)) && s.log[i].goal != goal
    {
      var c := s.log[i].call;
      assert BooksRight(s, c);
      NumberedGrows(c, s.log[i].goal, Count(s, c), Count(t, c));
      NewIdIsNew(call, n, c, s.log[i].goal, Count(s, c));
    }
    forall i | 0 <= i < |s.log|
      ensures t.log[i] == s.log[i]
    {
    }
  }

  lemma QuietKeeps(s: Session, e: Event)
    requires Inv(s) && Next(s, e).Some?
    requires e.Start? || e.ScanAllows? || e.Trips? || (e.SlowDown? && Begun(s.goals, e.call, e.travelled).1.None?)
    ensures Inv(Next(s, e).value)
  {
    hide Line, Reached, Numbered, HasMark, CameFromDriver, LineOwned, IdsOnce, OwnersNumbered, AnswersRight;
    var t := Next(s, e).value;
    forall c
      ensures (c in s.started ==> !HasMark(c)) && (c in s.sending ==> c in s.waiting) && (c in s.waiting ==> c in s.started)
      ensures c in s.goals.guards ==> c in s.started
    {
      assert BooksRight(s, c);
    }
    QuietStep(s, t);
  }

  lemma StepKeeps(s: Session, e: Event)
    requires Inv(s) && Next(s, e).Some?
    ensures Inv(Next(s, e).value)
  {
    hide Inv;
    match e
    case Arrives(m) => ArrivesKeeps(s, m);
    case Answer(call) => AnswerKeeps(s, call);
    case Close(call) => CloseKeeps(s, call);
    case SendEnds(call, sent) =>
      if sent {
        SentKeeps(s, call);
      } else {
        FailedKeeps(s, call);
      }
    case SlowDown(call, travelled) =>
      if Begun(s.goals, call, travelled).1.Some? {
        BeginKeeps(s, call, travelled);
      } else {
        QuietKeeps(s, e);
      }
    case _ => QuietKeeps(s, e);
  }

  lemma {:induction false} RunKeeps(s: Session, events: seq<Event>)
    requires Inv(s) && Run(s, events).Some?
    ensures Inv(Run(s, events).value)
    decreases |events|
  {
    hide Inv, Next;
    if events != [] {
      StepKeeps(s, events[0]);
      RunKeeps(Next(s, events[0]).value, events[1..]);
    }
  }

  lemma NewIsRight()
    ensures Inv(NewSession())
  {
  }

  // ---------------------------------------------------------------------------
  // The promises, over every run
  // ---------------------------------------------------------------------------

  /** Every result that answered a call came from the goal that was driving the call
      when the message was handled, and no replacement id was ever used twice or is a
      call's own. */
  lemma AnswersComeFromDrivers(events: seq<Event>)
    requires Run(NewSession(), events).Some?
    ensures var s := Run(NewSession(), events).value;
            && (forall i :: 0 <= i < |s.log| && s.log[i].Answered? ==> CameFromDriver(s.log[..i], s.log[i].call, s.log[i].m))
            && (forall i, j :: 0 <= i < j < |s.log| && s.log[i].Began? && s.log[j].Began? ==> s.log[i].goal != s.log[j].goal)
            && (forall i :: 0 <= i < |s.log| && s.log[i].Began? ==> s.log[i].goal !in s.started)
  {
    hide Run, Numbered, LineOwned, CameFromDriver, OwnersNumbered, HasMark;
    NewIsRight();
    RunKeeps(NewSession(), events);
    var s := Run(NewSession(), events).value;
    forall i | 0 <= i < |s.log| && s.log[i].Began?
      ensures s.log[i].goal !in s.started
    {
      NumberedIsMarked(s.log[i].call, s.log[i].goal, Count(s, s.log[i].call));
      assert BooksRight(s, s.log[i].goal);
    }
  }

  lemma NumberedIsMarked(call: string, goal: string, bound: nat)
    requires Numbered(call, goal, bound)
    ensures HasMark(goal)
  {
    var n: nat :| n < bound && goal == SlowId(call, n);
    SlowIdIsMarked(call, n);
  }

  /** The call's own goal, or a replacement begun for it, whatever became of it. */
  ghost predicate EverOf(call: string, goal: string, log: seq<Entry>) {
    goal == call || exists i :: 0 <= i < |log| && IsBegin(log[i], call, goal)
  }

  /** A result of a goal that is not driving its call any more changes the result of
      no call, however it ended. */
  lemma ReplacedGoalEndsNothing(events: seq<Event>, call: string, m: Message)
    requires Run(NewSession(), events).Some?
    requires var s := Run(NewSession(), events).value;
             && call in s.started && m.op.ActionResult? && m.id.Some?
             && EverOf(call, m.id.value, s.log) && m.id.value != Driving(call, s.log)
    ensures var s := Run(NewSession(), events).value;
            forall c :: c in s.started ==>
              var after := Handled(s.goals, m).results;
              (c in after <==> c in s.goals.results) && (c in after ==> after[c] == s.goals.results[c])
  {
    hide Run, Numbered, LineOwned, CameFromDriver, HasMark, AnswersRight, Line;
    NewIsRight();
    RunKeeps(NewSession(), events);
    var s := Run(NewSession(), events).value;
    var goal := m.id.value;
    assert BooksRight(s, call) && BooksRight(s, goal);
    if goal in s.goals.owner {
      OwnerIsCall(s, call, goal);
    } else if goal != call {
      var i :| 0 <= i < |s.log| && IsBegin(s.log[i], call, goal);
      NumberedIsMarked(call, goal, Count(s, call));
      assert goal !in s.started;
    }
  }

  lemma OwnerIsCall(s: Session, call: string, goal: string)
    requires Inv(s) && call in s.started && EverOf(call, goal, s.log) && goal in s.goals.owner
    ensures s.goals.owner[goal] == call
  {
    hide LineOwned, CameFromDriver, HasMark, AnswersRight, Line;
    var c := s.goals.owner[goal];
    assert BooksRight(s, c) && BooksRight(s, call) && BooksRight(s, goal);
    var n: nat :| n < Count(s, c) && goal == SlowId(c, n);
    SlowIdIsMarked(c, n);
    var i :| 0 <= i < |s.log| && IsBegin(s.log[i], call, goal);
    var k: nat :| k < Count(s, call) && goal == SlowId(call, k);
    SlowIdsDistinct(c, n, call, k);
  }

  /** The result of the goal the server last accepted answers its call exactly when
      no replacement is being sent. While one is, the result is dropped, and if that
      send then fails nothing answers the call: the goal it went back to had already
      ended. */
  lemma AcceptedGoalAnswersExactlyWhen(events: seq<Event>, call: string, m: Message)
    requires Run(NewSession(), events).Some?
    requires var s := Run(NewSession(), events).value;
             call in s.started && m.op.ActionResult? && m.id == Some(Reached(call, s.log))
    ensures var s := Run(NewSession(), events).value;
            Handled(s.goals, m) == if call in s.sending then s.goals else s.goals.(results := s.goals.results[call := m])
  {
    hide Run, Numbered, CameFromDriver, HasMark, AnswersRight, Line, Reached;
    NewIsRight();
    RunKeeps(NewSession(), events);
    var s := Run(NewSession(), events).value;
    var goal := m.id.value;
    var line := Line(call, s.log);
    assert LineOwned(s, call) && BooksRight(s, call);
    if goal == call {
      CallOwnsItself(s, call);
    }
    LineFirst(call, s.log);
    if call in s.sending && |line| == 2 {
      SlowGoalIsNotCall(s, call, line[1]);
    }
  }

  lemma LineFirst(call: string, log: seq<Entry>)
    ensures Line(call, log)[0] == call
  {
  }

  lemma CallOwnsItself(s: Session, call: string)
    requires Inv(s) && call in s.started
    ensures call !in s.goals.owner
  {
    hide CameFromDriver, HasMark, AnswersRight, Line, LineOwned, Numbered;
    assert BooksRight(s, call);
    if call in s.goals.owner {
      NumberedIsMarked(s.goals.owner[call], call, Count(s, s.goals.owner[call]));
    }
  }

  lemma SlowGoalIsNotCall(s: Session, call: string, goal: string)
    requires LineOwned(s, call) && BooksRight(s, call) && call in s.started && goal in Line(call, s.log)[1..]
    ensures goal != call
  {
    hide Numbered, HasMark, Line, Reached;
    var k :| 1 <= k < |Line(call, s.log)| && Line(call, s.log)[k] == goal;
    NumberedIsMarked(call, goal, Count(s, call));
  }

  /** So a call can lose its only result: the running goal ends while a slower one is
      being sent, and the send fails. */
  lemma ResultLostInFailedSend(call: string, guard: Guard, allowed: real, body: int)
    requires !HasMark(call) && Fresh(guard) && guard.resends && guard.distance > NEARLY_THERE_M
    requires allowed < guard.speed * SLOWDOWN_STEP
    ensures var events := [Start(call, Some(guard)), ScanAllows(call, allowed), SlowDown(call, 0.0),
                           Arrives(Message(ActionResult, Some(call), body)), SendEnds(call, false)];
            var s := Run(NewSession(), events);
            && s.Some? && call in s.value.waiting && call !in s.value.sending
            && Driving(call, s.value.log) == Reached(call, s.value.log) == call && call !in s.value.goals.results
  {
    hide Run, HasMark, Line, Reached;
    var m := Message(ActionResult, Some(call), body);
    var goal := SlowId(call, 1);
    var e5 := [SendEnds(call, false)];
    var e4 := [Arrives(m)] + e5;
    var e3 := [SlowDown(call, 0.0)] + e4;
    var e2 := [ScanAllows(call, allowed)] + e3;
    assert [Start(call, Some(guard)), ScanAllows(call, allowed), SlowDown(call, 0.0), Arrives(m), SendEnds(call, false)]
           == [Start(call, Some(guard))] + e2;
    var s1 := Next(NewSession(), Start(call, Some(guard))).value;
    var s2 := Next(s1, ScanAllows(call, allowed)).value;
    var s3 := Next(s2, SlowDown(call, 0.0)).value;
    SlowIdIsMarked(call, 1);
    var s4 := Next(s3, Arrives(m)).value;
    assert s4 == s3;
    var s5 := Next(s4, SendEnds(call, false)).value;
    assert e5 == [SendEnds(call, false)] + [];
    Then(NewSession(), Start(call, Some(guard)), e2);
    Then(s1, ScanAllows(call, allowed), e3);
    Then(s2, SlowDown(call, 0.0), e4);
    Then(s3, Arrives(m), e5);
    Then(s4, SendEnds(call, false), []);
    AtEnd(s5);
    Empty(call);
    var began := Began(call, goal, 0.0, Resend(guard.distance, allowed));
    LogNext(call, [], began);
    LogNext(call, [began], SendFailed(call, goal));
    assert s3.log == [] + [began] == [began];
    assert s5.log == [began] + [SendFailed(call, goal)];
  }

  lemma Empty(call: string)
    ensures Line(call, []) == [call] && Reached(call, []) == call
  {
  }

  lemma Then(s: Session, e: Event, rest: seq<Event>)
    requires Next(s, e).Some?
    ensures Run(s, [e] + rest) == Run(Next(s, e).value, rest)
  {
    hide Next;
    assert ([e] + rest)[1..] == rest;
  }

  lemma AtEnd(s: Session)
    ensures Run(s, []) == Some(s)
  {
  }

  // ---------------------------------------------------------------------------
  // Every replacement is slower
  // ---------------------------------------------------------------------------

  /** Each speed a drive was sent with is under the step below the one before, and
      so is the speed that is due. */
  predicate Slowing(guard: Guard) {
    && guard.changes != [] && guard.changes[|guard.changes| - 1].speed == guard.speed
    && (forall k :: 0 < k < |guard.changes| ==> guard.changes[k].speed < guard.changes[k - 1].speed * SLOWDOWN_STEP)
    && (guard.slowTo.Some? ==> guard.slowTo.value < guard.speed * SLOWDOWN_STEP)
  }

  ghost predicate AllSlowing(s: Session) {
    forall c :: c in s.goals.guards ==> Slowing(s.goals.guards[c])
  }

  lemma SlowingNext(guard: Guard, remaining: real)
    requires Slowing(guard) && guard.slowTo.Some?
    ensures Slowing(Guard(true, None, guard.slowTo.value, guard.distance,
                          guard.changes + [SpeedChange(guard.slowTo.value, Some(remaining))]))
  {
  }

  lemma SlowingDue(guard: Guard, due: Option<real>)
    requires Slowing(guard) && (due.Some? ==> due.value < guard.speed * SLOWDOWN_STEP)
    ensures Slowing(guard.(slowTo := due))
  {
  }

  lemma StepSlows(s: Session, e: Event)
    requires AllSlowing(s) && Next(s, e).Some?
    ensures AllSlowing(Next(s, e).value)
  {
    hide HasMark, StoredEntries, Slowing;
    match e
    case SlowDown(call, travelled) =>
      if MaySlow(s.goals, call) {
        SlowingNext(s.goals.guards[call], s.goals.guards[call].distance - travelled);
        SlowingDue(s.goals.guards[call], None);
      }
    case ScanAllows(call, allowed) =>
      if call in s.goals.guards && allowed < s.goals.guards[call].speed * SLOWDOWN_STEP {
        SlowingDue(s.goals.guards[call], Some(allowed));
      }
    case Trips(call) =>
      if call in s.goals.guards {
        SlowingDue(s.goals.guards[call], None);
      }
    case Start(call, guard) =>
      if guard.Some? && Fresh(guard.value) {
        FreshSlows(guard.value);
      }
    case _ =>
  }

  lemma FreshSlows(guard: Guard)
    requires Fresh(guard)
    ensures Slowing(guard)
  {
  }

  lemma {:induction false} ReplacementsAreSlower(s: Session, events: seq<Event>)
    requires AllSlowing(s) && Run(s, events).Some?
    ensures AllSlowing(Run(s, events).value)
    decreases |events|
  {
    hide AllSlowing, Next;
    if events != [] {
      StepSlows(s, events[0]);
      ReplacementsAreSlower(Next(s, events[0]).value, events[1..]);
    }
  }
}
