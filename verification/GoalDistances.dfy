/** What replacements ask for: over every run, the rest of the drive's distance at the
    speed a scan allowed (flyto_robotics/generic_ros2_adapter.py). */
module GoalDistances {
  import opened Wrappers
  import opened GoalReplacement
  import opened GoalRuns

  // ---------------------------------------------------------------------------
  // One slow-down
  // ---------------------------------------------------------------------------

  /** A slow-down begins a replacement exactly when the drive of an active call can be
      re-sent, a slower speed is due, and more than two centimetres of its distance
      are left. */
  predicate Begins(s: Session, call: string, travelled: real) {
    && call in s.goals.guards && call in s.goals.active
    && s.goals.guards[call].resends && s.goals.guards[call].slowTo.Some?
    && s.goals.guards[call].distance > travelled + 0.02
  }

  /** Beginning nothing leaves the history, the sends and the ids as they were, and
      nothing due for a drive that was near its end. */
  lemma SlowDownBeginsExactlyWhen(s: Session, call: string, travelled: real)
    requires Next(s, SlowDown(call, travelled)).Some?
    ensures var t := Next(s, SlowDown(call, travelled)).value;
            && (call in t.sending <==> Begins(s, call, travelled))
            && (if Begins(s, call, travelled) then
                  && t.sending[call].resend.distance + travelled == s.goals.guards[call].distance
                  && s.goals.guards[call].slowTo == Some(t.sending[call].resend.speed)
                  && t.goals.guards[call].speed == t.sending[call].resend.speed && t.goals.guards[call].slowTo.None?
                  && t.log == s.log + [Began(call, t.sending[call].goal, travelled, t.sending[call].resend)]
                else
                  && t.log == s.log && t.sending == s.sending
                  && t.goals.(guards := s.goals.guards) == s.goals && t.goals.guards.Keys == s.goals.guards.Keys
                  && forall c :: c in s.goals.guards ==>
                       t.goals.guards[c] == if c == call && MaySlow(s.goals, call) then s.goals.guards[c].(slowTo := None)
                                            else s.goals.guards[c])
  {
  }

  // ---------------------------------------------------------------------------
  // Over every run, said of its events
  // ---------------------------------------------------------------------------

  /** A call was started with a re-sendable drive of this distance. */
  ghost predicate StartedWith(h: seq<Event>, call: string, distance: real) {
    exists j, guard :: 0 <= j < |h| && h[j] == Start(call, Some(guard)) && guard.distance == distance && guard.resends
  }

  predicate Clears(e: Event, call: string) {
    (e.Trips? || e.SlowDown?) && e.call == call
  }

  /** A scan allowed this speed, and no trip and no slow-down of the call came after. */
  ghost predicate DueIn(h: seq<Event>, call: string, speed: real) {
    exists m :: 0 <= m < |h| && h[m] == ScanAllows(call, speed) && forall x :: m < x < |h| ==> !Clears(h[x], call)
  }

  /** A replacement was begun by a slow-down, for what was then left of the drive and
      at the speed then due. */
  ghost predicate Justified(h: seq<Event>, e: Entry)
    requires e.Began?
  {
    && e.resend.distance > 0.02
    && exists k :: 0 <= k < |h| && h[k] == SlowDown(e.call, e.travelled)
                   && StartedWith(h[..k], e.call, e.resend.distance + e.travelled) && DueIn(h[..k], e.call, e.resend.speed)
  }

  ghost predicate GuardsRight(s: Session, h: seq<Event>) {
    && (forall c :: c in s.goals.guards ==> GuardRight(s.goals.guards[c], c, h))
    && (forall c :: c in s.waiting ==> c in s.goals.active)
  }

  ghost predicate GuardRight(guard: Guard, c: string, h: seq<Event>) {
    && (guard.resends ==> StartedWith(h, c, guard.distance))
    && (guard.slowTo.Some? ==> guard.resends && DueIn(h, c, guard.slowTo.value))
  }

  ghost predicate HistoryRight(s: Session, h: seq<Event>) {
    GuardsRight(s, h) && forall i :: 0 <= i < |s.log| && s.log[i].Began? ==> Justified(h, s.log[i])
  }

  lemma StartedStays(h: seq<Event>, e: Event, call: string, distance: real)
    requires StartedWith(h, call, distance)
    ensures StartedWith(h + [e], call, distance)
  {
    var j, guard :| 0 <= j < |h| && h[j] == Start(call, Some(guard)) && guard.distance == distance && guard.resends;
    assert (h + [e])[j] == h[j];
  }

  lemma DueStays(h: seq<Event>, e: Event, call: string, speed: real)
    requires DueIn(h, call, speed) && !Clears(e, call)
    ensures DueIn(h + [e], call, speed)
  {
    var m :| 0 <= m < |h| && h[m] == ScanAllows(call, speed) && forall x :: m < x < |h| ==> !Clears(h[x], call);
    assert (h + [e])[m] == h[m];
    forall x | m < x < |h + [e]|
      ensures !Clears((h + [e])[x], call)
    {
      if x < |h| {
        assert (h + [e])[x] == h[x];
      }
    }
  }

  lemma JustifiedStays(h: seq<Event>, x: Event, e: Entry)
    requires e.Began? && Justified(h, e)
    ensures Justified(h + [x], e)
  {
    hide StartedWith, DueIn;
    var k :| 0 <= k < |h| && h[k] == SlowDown(e.call, e.travelled)
             && StartedWith(h[..k], e.call, e.resend.distance + e.travelled) && DueIn(h[..k], e.call, e.resend.speed);
    assert (h + [x])[k] == h[k] && (h + [x])[..k] == h[..k];
  }

  /** A guard the event neither sets nor clears. */
  lemma GuardStays(guard: Guard, c: string, h: seq<Event>, e: Event)
    requires GuardRight(guard, c, h)
    ensures GuardRight(guard.(slowTo := None), c, h + [e])
    ensures !Clears(e, c) ==> GuardRight(guard, c, h + [e])
  {
    hide StartedWith, DueIn, Clears;
    if guard.resends {
      StartedStays(h, e, c, guard.distance);
    }
    if guard.slowTo.Some? && !Clears(e, c) {
      DueStays(h, e, c, guard.slowTo.value);
    }
  }

  lemma ScanMakesDue(guard: Guard, c: string, h: seq<Event>, allowed: real)
    requires GuardRight(guard, c, h) && guard.resends
    ensures GuardRight(guard.(slowTo := Some(allowed)), c, h + [ScanAllows(c, allowed)])
  {
    hide StartedWith;
    var g := h + [ScanAllows(c, allowed)];
    if guard.resends {
      StartedStays(h, ScanAllows(c, allowed), c, guard.distance);
    }
    assert g[|h|] == ScanAllows(c, allowed);
  }

  lemma StartIsRight(guard: Guard, c: string, h: seq<Event>)
    requires Fresh(guard)
    ensures GuardRight(guard, c, h + [Start(c, Some(guard))])
  {
    assert (h + [Start(c, Some(guard))])[|h|] == Start(c, Some(guard));
  }

  /** What a step does to one call's guard. */
  lemma GuardsAfter(s: Session, e: Event, h: seq<Event>)
    requires GuardsRight(s, h) && Next(s, e).Some?
    ensures GuardsRight(Next(s, e).value, h + [e])
  {
    hide HasMark, StoredEntries, GuardRight, Clears;
    var t := Next(s, e).value;
    forall c | c in t.goals.guards
      ensures GuardRight(t.goals.guards[c], c, h + [e])
    {
      if c in s.goals.guards {
        GuardStays(s.goals.guards[c], c, h, e);
        ClearsOne(e, c);
      }
      match e
      case Start(call, guard) =>
        if guard.Some? && call == c {
          StartIsRight(guard.value, c, h);
        }
      case ScanAllows(call, allowed) =>
        if call == c && s.goals.guards[c].resends {
          ScanMakesDue(s.goals.guards[c], c, h, allowed);
        }
      case SlowDown(call, travelled) =>
        if call == c {
          SlowedGuard(s, c, travelled, h);
        }
      case _ =>
    }
  }

  lemma ClearsOne(e: Event, c: string)
    ensures Clears(e, c) <==> (e.Trips? || e.SlowDown?) && e.call == c
  {
  }

  lemma SlowedGuard(s: Session, c: string, travelled: real, h: seq<Event>)
    requires GuardsRight(s, h) && c in s.goals.guards && Next(s, SlowDown(c, travelled)).Some?
    ensures var t := Next(s, SlowDown(c, travelled)).value;
            c in t.goals.guards && GuardRight(t.goals.guards[c], c, h + [SlowDown(c, travelled)])
  {
    hide StartedWith, DueIn;
    var guard := s.goals.guards[c];
    assert GuardRight(guard, c, h);
    if guard.resends {
      StartedStays(h, SlowDown(c, travelled), c, guard.distance);
    }
  }

  lemma LogAfter(s: Session, e: Event, h: seq<Event>)
    requires HistoryRight(s, h) && Next(s, e).Some?
    ensures var log := Next(s, e).value.log; forall i :: 0 <= i < |log| && log[i].Began? ==> Justified(h + [e], log[i])
  {
    hide HasMark, GuardRight, Justified;
    var t := Next(s, e).value;
    forall i | 0 <= i < |t.log| && t.log[i].Began?
      ensures Justified(h + [e], t.log[i])
    {
      if i < |s.log| {
        assert t.log[i] == s.log[i];
        JustifiedStays(h, e, s.log[i]);
      } else {
        assert e.SlowDown?;
        BeganIsJustified(s, e.call, e.travelled, h);
      }
    }
  }

  lemma BeganIsJustified(s: Session, call: string, travelled: real, h: seq<Event>)
    requires GuardsRight(s, h) && Next(s, SlowDown(call, travelled)).Some? && Begins(s, call, travelled)
    ensures var t := Next(s, SlowDown(call, travelled)).value;
            var e := Began(call, t.sending[call].goal, travelled, t.sending[call].resend);
            Justified(h + [SlowDown(call, travelled)], e)
  {
    hide StartedWith, DueIn;
    SlowDownBeginsExactlyWhen(s, call, travelled);
    var g := h + [SlowDown(call, travelled)];
    assert GuardRight(s.goals.guards[call], call, h);
    assert g[|h|] == SlowDown(call, travelled) && g[..|h|] == h;
  }

  lemma {:induction false} RunKeepsHistory(s: Session, h: seq<Event>, events: seq<Event>)
    requires HistoryRight(s, h) && Run(s, events).Some?
    ensures HistoryRight(Run(s, events).value, h + events)
    decreases |events|
  {
    hide GuardsRight, Justified, Next;
    if events == [] {
      assert h + events == h;
    } else {
      GuardsAfter(s, events[0], h);
      LogAfter(s, events[0], h);
      RunKeepsHistory(Next(s, events[0]).value, h + [events[0]], events[1..]);
      assert h + [events[0]] + events[1..] == h + events;
    }
  }

  /** Over every run: a replacement was begun by a slow-down of its call, asks for
      more than two centimetres and exactly what the distance travelled by then left
      of the drive the call was started with, at a speed a scan had allowed with
      nothing since that took it back. */
  lemma ReplacementsAskForTheRest(events: seq<Event>, i: nat)
    requires Run(NewSession(), events).Some?
    requires i < |Run(NewSession(), events).value.log| && Run(NewSession(), events).value.log[i].Began?
    ensures Justified(events, Run(NewSession(), events).value.log[i])
  {
    hide Run, Justified;
    assert HistoryRight(NewSession(), []);
    RunKeepsHistory(NewSession(), [], events);
    assert [] + events == events;
  }
}
