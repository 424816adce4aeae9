/** What the events of a run say about its leases and its health, and when they say
    all of it (flyto_robotics/facility_resources.py). */
module FacilityReplay {
  import opened FacilityCatalog
  import opened FacilityRuntime

  // ---------------------------------------------------------------------------
  // Replay
  // ---------------------------------------------------------------------------

  datatype Replayed = Replayed(active: map<string, string>, healthy: map<string, bool>)

  function Apply(p: Replayed, body: Body): Replayed {
    match body
    case HealthChanged(id, healthy, _) => p.(healthy := p.healthy[id := healthy])
    case LeaseAcquired(id, kind, _, _) => p.(active := p.active[kind := id])
    case LeaseReleased(_, kind, _) => p.(active := p.active - {kind})
    case _ => p
  }

  /** From the start of the run: every resource healthy, nothing leased. */
  function Replay(resources: seq<Resource>, events: seq<Event>): Replayed {
    if events == [] then Replayed(map[], Started(resources).healthy)
    else Apply(Replay(resources, events[..|events| - 1]), events[|events| - 1].body)
  }

  lemma ReplayNext(resources: seq<Resource>, events: seq<Event>, e: Event)
    ensures Replay(resources, events + [e]) == Apply(Replay(resources, events), e.body)
  {
    assert (events + [e])[..|events|] == events;
  }

  /** The events say everything there is about leases and health. */
  predicate Rebuilds(s: Runtime) {
    Replay(s.resources, s.events) == Replayed(s.active, s.healthy)
  }

  /** Each lease event fits what the events before it say: acquired when its kind has
      none, released by the one that has it. */
  predicate Fits(p: Replayed, body: Body) {
    match body
    case LeaseAcquired(_, kind, _, _) => kind !in p.active
    case LeaseReleased(id, kind, _) => kind in p.active && p.active[kind] == id
    case _ => true
  }

  ghost predicate Alternates(resources: seq<Resource>, events: seq<Event>) {
    forall i :: 0 <= i < |events| ==> Fits(Replay(resources, events[..i]), events[i].body) && events[i].sequence == i + 1
  }

  lemma AlternatesNext(resources: seq<Resource>, events: seq<Event>, e: Event)
    requires Alternates(resources, events) && Fits(Replay(resources, events), e.body) && e.sequence == |events| + 1
    ensures Alternates(resources, events + [e])
  {
    hide Replay, Fits;
    forall i | 0 <= i < |events + [e]|
      ensures Fits(Replay(resources, (events + [e])[..i]), (events + [e])[i].body)
    {
      assert (events + [e])[..i] == events[..i];
      assert events[..|events|] == events;
    }
  }

  /** What a recording does to both. */
  lemma RecordedReplays(s: Runtime, at: real, body: Body)
    ensures var (t, r) := Recorded(s, at, body);
            && (r.Err? ==> t == s)
            && (r.Ok? ==>
                  && t == s.(events := t.events) && |t.events| == |s.events| + 1
                  && Replay(t.resources, t.events) == Apply(Replay(s.resources, s.events), body)
                  && (Alternates(s.resources, s.events) && Fits(Replay(s.resources, s.events), body)
                      ==> Alternates(t.resources, t.events)))
            && (r.Ok? <==> InWindow(at) && |s.events| < MAX_EVENTS)
  {
    hide Alternates, Replay, Fits, Apply;
    var e := Event(|s.events| + 1, at, body);
    ReplayNext(s.resources, s.events, e);
    if Alternates(s.resources, s.events) && Fits(Replay(s.resources, s.events), body) {
      AlternatesNext(s.resources, s.events, e);
    }
  }

  // ---------------------------------------------------------------------------
  // A handoff
  // ---------------------------------------------------------------------------

  predicate Retains(s: Runtime, kind: string, chosen: Selection) {
    kind in s.active && s.active[kind] == chosen.resource.id
  }

  /** A handoff changes a lease it cannot record: it binds a new resource, after the
      release (if any) was recorded, without room, time or a reason for the rest. */
  predicate BindsUnrecorded(s: Runtime, kind: string, zone: string, at: real, reason: string, need: Requirement) {
    var chosen := Chosen(s, kind, zone, need);
    && chosen.Ok? && !Retains(s, kind, chosen.value)
    && (kind in s.active ==> InWindow(at) && |s.events| < MAX_EVENTS)
    && !(InWindow(at) && IsIdentifier(reason) && |s.events| + (if kind in s.active then 3 else 2) <= MAX_EVENTS)
  }

  lemma RetainedRebuilds(s: Runtime, selection: Selection, kind: string, zone: string, at: real, reason: string)
    requires Rebuilds(s) && Alternates(s.resources, s.events)
    ensures var t := Retained(s, selection, kind, zone, at, reason).0;
            Rebuilds(t) && Alternates(t.resources, t.events) && t.resources == s.resources
  {
    hide Replay, Alternates, Recorded, IsIdentifier;
    var id, need := selection.resource.id, selection.dependency;
    var s0 := Holding(s, kind, zone, need);
    RecordedReplays(s0, at, LeaseRetained(id, kind, zone, reason, need.band));
    var (s1, kept) := RecordedFor(s0, reason, at, LeaseRetained(id, kind, zone, reason, need.band));
    if kept.Ok? {
      RecordedReplays(s1, at, Assessed(id, kind, true));
      assert Retained(s, selection, kind, zone, at, reason).0 == Recorded(s1, at, Assessed(id, kind, true)).0;
    }
  }

  lemma ReleasedRebuilds(s: Runtime, kind: string, at: real)
    requires Rebuilds(s) && Alternates(s.resources, s.events)
    ensures var (t, r) := Released(s, kind, at);
            && Alternates(t.resources, t.events) && t == s.(events := t.events)
            && (r.Ok? <==> (kind in s.active ==> InWindow(at) && |s.events| < MAX_EVENTS))
            && (r.Err? ==> t == s)
            && (r.Ok? ==> Replay(t.resources, t.events) == Replayed(s.active - {kind}, s.healthy)
                          && |t.events| == |s.events| + if kind in s.active then 1 else 0)
  {
    hide Replay, Alternates, Recorded;
    if kind in s.active {
      RecordedReplays(s, at, LeaseReleased(s.active[kind], kind, ZONE_HANDOFF));
      assert Released(s, kind, at) == Recorded(s, at, LeaseReleased(s.active[kind], kind, ZONE_HANDOFF));
    } else {
      assert s.active - {kind} == s.active;
    }
  }

  /** A binding rebuilds exactly when its acquisition was recorded, or nothing was. */
  lemma BoundRebuilds(s: Runtime, selection: Selection, kind: string, zone: string, at: real, reason: string)
    requires Rebuilds(s) && Alternates(s.resources, s.events) && !Retains(s, kind, selection)
    ensures var t := Bound(s, selection, kind, zone, at, reason).0;
            && Alternates(t.resources, t.events) && t.resources == s.resources
            && (Rebuilds(t) <==>
                  || (kind in s.active && !(InWindow(at) && |s.events| < MAX_EVENTS))
                  || (InWindow(at) && IsIdentifier(reason) && |s.events| + (if kind in s.active then 3 else 2) <= MAX_EVENTS))
  {
    hide Replay, Alternates, Recorded, IsIdentifier, Released;
    var r, need := selection.resource, selection.dependency;
    ReleasedRebuilds(s, kind, at);
    var (s1, released) := Released(s, kind, at);
    if released.Ok? {
      var s2 := Holding(s1.(active := s1.active[kind := r.id]), kind, zone, need);
      var routed := RouterSelected(r.id, kind, zone, r.adapter, r.endpoint, selection.candidates, selection.reason,
                                   reason, need.band);
      RecordedReplays(s2, at, routed);
      LeaseIsNew(s.active, kind, r.id);
      var (s3, gone) := RecordedFor(s2, reason, at, routed);
      if gone.Ok? {
        RecordedReplays(s3, at, LeaseAcquired(r.id, kind, zone, need.band));
        var (s4, acquired) := Recorded(s3, at, LeaseAcquired(r.id, kind, zone, need.band));
        if acquired.Ok? {
          RecordedReplays(s4, at, Assessed(r.id, kind, true));
          assert Bound(s, selection, kind, zone, at, reason).0 == Recorded(s4, at, Assessed(r.id, kind, true)).0;
        } else {
          assert Bound(s, selection, kind, zone, at, reason).0 == s4;
        }
      } else {
        assert Bound(s, selection, kind, zone, at, reason).0 == s3;
      }
    } else {
      assert Bound(s, selection, kind, zone, at, reason).0 == s1;
    }
  }

  /** A new lease differs from none and from the old one. */
  lemma LeaseIsNew(active: map<string, string>, kind: string, id: string)
    ensures (active - {kind})[kind := id] == active[kind := id] && active - {kind} != active[kind := id]
    ensures kind !in active - {kind}
  {
    assert kind in active[kind := id];
  }

  /** After any handoff, whether it returned or raised, the events rebuild leases and
      health if and only if it did not bind a resource it could not record. */
  lemma HandoffRebuildsExactlyWhen(s: Runtime, kind: string, zone: string, at: real, reason: string, need: Requirement)
    requires Rebuilds(s) && Alternates(s.resources, s.events)
    ensures var t := HandedOff(s, kind, zone, at, reason, need).0;
            && Alternates(t.resources, t.events) && t.resources == s.resources
            && (Rebuilds(t) <==> !BindsUnrecorded(s, kind, zone, at, reason, need))
  {
    hide Rebuilds, Alternates, Chosen, Retained, Bound, IsIdentifier, InWindow;
    var chosen := Chosen(s, kind, zone, need);
    if chosen.Ok? {
      if Retains(s, kind, chosen.value) {
        RetainedRebuilds(s, chosen.value, kind, zone, at, reason);
      } else {
        BoundRebuilds(s, chosen.value, kind, zone, at, reason);
      }
    }
  }

  // ---------------------------------------------------------------------------
  // A change of health
  // ---------------------------------------------------------------------------

  predicate ChangesHealth(s: Runtime, id: string, healthy: bool) {
    IsHealthy(s.healthy, id) != healthy
  }

  predicate LosesLease(s: Runtime, id: string, healthy: bool) {
    Find(s, id).Ok? && !healthy && Find(s, id).value.kind in s.active && s.active[Find(s, id).value.kind] == id
  }

  function Changes(s: Runtime, id: string, healthy: bool): nat {
    if ChangesHealth(s, id, healthy) then 1 else 0
  }

  /** A change of health cannot be recorded, or a lease is let go with room for its
      assessment and none for its release. */
  predicate HealthUnrecorded(s: Runtime, id: string, healthy: bool, at: real, reason: string) {
    && Find(s, id).Ok?
    && (|| (ChangesHealth(s, id, healthy) && !(InWindow(at) && IsIdentifier(reason) && |s.events| < MAX_EVENTS))
        || (LosesLease(s, id, healthy) && InWindow(at) && |s.events| + Changes(s, id, healthy) + 1 == MAX_EVENTS))
  }

  lemma LetGoRebuilds(s: Runtime, r: Resource, at: real)
    requires Rebuilds(s) && Alternates(s.resources, s.events) && r.kind in s.active && s.active[r.kind] == r.id
    ensures var (t, done) := LetGo(s, r, at);
            && Alternates(t.resources, t.events) && t.resources == s.resources
            && (Rebuilds(t) <==> !(InWindow(at) && |s.events| + 1 == MAX_EVENTS))
  {
    hide Replay, Alternates, Recorded, FallbackAvailable;
    var zone := if r.kind in s.zones then s.zones[r.kind] else r.zone;
    var body := Assessed(r.id, r.kind, FallbackAvailable(s, r, zone));
    RecordedReplays(s, at, body);
    var (s1, assessed) := Recorded(s, at, body);
    if assessed.Ok? {
      var s2 := s1.(active := s1.active - {r.kind}, zones := s1.zones - {r.kind}, needs := s1.needs - {r.kind});
      RecordedReplays(s2, at, LeaseReleased(r.id, r.kind, UNHEALTHY));
      assert r.kind !in s2.active;
      assert LetGo(s, r, at) == Recorded(s2, at, LeaseReleased(r.id, r.kind, UNHEALTHY));
    } else {
      assert LetGo(s, r, at).0 == s1;
    }
  }

  /** After any change of health, whether it returned or raised, the events rebuild
      leases and health if and only if what it changed could be recorded. */
  lemma SetHealthRebuildsExactlyWhen(s: Runtime, id: string, healthy: bool, at: real, reason: string)
    requires Rebuilds(s) && Alternates(s.resources, s.events) && (Find(s, id).Ok? ==> id in s.healthy)
    ensures var t := HealthSet(s, id, healthy, at, reason).0;
            && Alternates(t.resources, t.events) && t.resources == s.resources
            && (Rebuilds(t) <==> !HealthUnrecorded(s, id, healthy, at, reason))
  {
    hide Replay, Alternates, Recorded, LetGo, IsIdentifier, Find;
    var found := Find(s, id);
    if found.Ok? {
      var r := found.value;
      FoundIsNamed(s, id);
      var s1 := s.(healthy := s.healthy[id := healthy]);
      var body := HealthChanged(id, healthy, reason);
      RecordedReplays(s1, at, body);
      if ChangesHealth(s, id, healthy) {
        assert s1.healthy[id] != s.healthy[id];
        var (s2, noted) := RecordedFor(s1, reason, at, body);
        if noted.Ok? && LosesLease(s, id, healthy) {
          LetGoRebuilds(s2, r, at);
        }
      } else {
        assert s1.healthy == s.healthy;
        if LosesLease(s, id, healthy) {
          LetGoRebuilds(s1, r, at);
        }
      }
    }
  }

  lemma FoundIsNamed(s: Runtime, id: string)
    requires Find(s, id).Ok?
    ensures Find(s, id).value.id == id && Find(s, id).value in s.resources
  {
  }
}
