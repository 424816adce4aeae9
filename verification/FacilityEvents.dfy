/** What a handoff or a change of health tells of itself, and when it returns
    (flyto_robotics/facility_resources.py). */
module FacilityEvents {
  import opened Wrappers
  import opened FacilityCatalog
  import opened FacilityRuntime
  import opened FacilityReplay
  import opened FacilityRuns

  /** The same events and after them these, numbered on, all at one time. */
  predicate Tells(before: seq<Event>, after: seq<Event>, at: real, bodies: seq<Body>) {
    && |after| == |before| + |bodies| && after[..|before|] == before
    && forall i :: 0 <= i < |bodies| ==> after[|before| + i] == Event(|before| + i + 1, at, bodies[i])
  }

  lemma TellsMore(before: seq<Event>, between: seq<Event>, after: seq<Event>, at: real, bodies: seq<Body>, body: Body)
    requires Tells(before, between, at, bodies) && after == between + [Event(|between| + 1, at, body)]
    ensures Tells(before, after, at, bodies + [body])
  {
    assert after[..|before|] == between[..|before|];
  }

  lemma TellsNothing(events: seq<Event>, at: real)
    ensures Tells(events, events, at, [])
  {
  }

  /** What an unhindered handoff tells: that a lease is kept; or that the old one, if any,
      is let go, which resource was chosen of which and why, and that it is leased. */
  function HandoffBodies(s: Runtime, chosen: Selection, kind: string, zone: string, reason: string): seq<Body> {
    var r, band := chosen.resource, chosen.dependency.band;
    var assessed := Assessed(r.id, kind, true);
    if kind in s.active && s.active[kind] == r.id then [LeaseRetained(r.id, kind, zone, reason, band), assessed]
    else
      var released := if kind in s.active then [LeaseReleased(s.active[kind], kind, "zone_handoff")] else [];
      released
      + [RouterSelected(r.id, kind, zone, r.adapter, r.endpoint, chosen.candidates, chosen.reason, reason, band)]
      + [LeaseAcquired(r.id, kind, zone, band)] + [assessed]
  }

  /** The dependency a chosen resource is held under: the one stated, or its own. */
  function Required(need: Requirement, r: Resource): Dependency {
    if need.Stated? then need.dependency else r.dependency
  }

  /** Of all that could serve, the one to be chosen. */
  ghost predicate IsFirst(s: Runtime, kind: string, zone: string, first: Resource) {
    && first in s.resources && Eligible(first, kind, zone, s.healthy)
    && forall r :: r in s.resources && Eligible(r, kind, zone, s.healthy) && r != first ==> Before(zone, first, r)
  }

  /** The first resource, under the dependency required of it, and why and of which it was
      chosen. */
  ghost predicate IsChoice(s: Runtime, kind: string, zone: string, need: Requirement, chosen: Selection) {
    && IsFirst(s, kind, zone, chosen.resource) && chosen.dependency == Required(need, chosen.resource)
    && (chosen.reason.ExactZone? <==> chosen.resource.zone == zone) && IsOrderOf(s, kind, zone, chosen.candidates)
  }

  /** The ids of all that could serve, in the order they would be chosen. */
  ghost predicate IsOrderOf(s: Runtime, kind: string, zone: string, ids: seq<string>) {
    exists order :: ids == IdsOf(order) && Ascending(zone, order)
                    && forall r :: r in order <==> r in s.resources && Eligible(r, kind, zone, s.healthy)
  }

  lemma ChosenIsFirst(s: Runtime, kind: string, zone: string, need: Requirement)
    requires UniqueIds(s.resources)
    ensures Chosen(s, kind, zone, need).Ok? ==> IsChoice(s, kind, zone, need, Chosen(s, kind, zone, need).value)
    ensures Chosen(s, kind, zone, need).Ok? <==>
              && IsIdentifier(kind) && IsIdentifier(zone) && !need.Malformed?
              && exists r :: r in s.resources && Eligible(r, kind, zone, s.healthy)
  {
    hide Eligible, Before, IsIdentifier, Candidates, InOrder, Ascending, UniqueIds;
    if IsIdentifier(kind) && IsIdentifier(zone) {
      SelectionIsFirst(s.resources, kind, zone, s.healthy);
      var found := Candidates(s.resources, kind, zone, s.healthy);
      CandidatesAre(s.resources, kind, zone, s.healthy);
      InOrderSorts(zone, found);
      if Select(s.resources, kind, zone, s.healthy).Ok? {
        assert Select(s.resources, kind, zone, s.healthy).value.candidates == IdsOf(InOrder(zone, found));
      }
    }
  }

  lemma FirstIsOne(s: Runtime, kind: string, zone: string, q: Resource, r: Resource)
    requires UniqueIds(s.resources) && IsFirst(s, kind, zone, q) && IsFirst(s, kind, zone, r)
    ensures q == r
  {
    hide Eligible, Before;
    if q != r {
      var i :| 0 <= i < |s.resources| && s.resources[i] == q;
      var j :| 0 <= j < |s.resources| && s.resources[j] == r;
      BeforeTotal(zone, q, r);
    }
  }

  /** How many events a handoff to this resource has to tell. */
  function ToTell(s: Runtime, kind: string, r: Resource): nat {
    if kind !in s.active then 3 else if s.active[kind] == r.id then 2 else 4
  }

  predicate CanTell(s: Runtime, at: real, reason: string, events: nat) {
    0.0 <= at <= 86400.0 && IsIdentifier(reason) && |s.events| + events <= 512
  }

  lemma RetainedTells(s: Runtime, chosen: Selection, kind: string, zone: string, at: real, reason: string)
    requires Retains(s, kind, chosen)
    ensures var (t, r) := Retained(s, chosen, kind, zone, at, reason);
            && (r.Ok? <==> CanTell(s, at, reason, 2))
            && (r.Ok? ==> r.value == chosen && Tells(s.events, t.events, at, HandoffBodies(s, chosen, kind, zone, reason))
                          && t == s.(events := t.events, zones := s.zones[kind := zone],
                                     needs := s.needs[kind := chosen.dependency]))
  {
    hide IsIdentifier;
  }

  lemma BoundTells(s: Runtime, chosen: Selection, kind: string, zone: string, at: real, reason: string)
    requires !Retains(s, kind, chosen)
    ensures var (t, r) := Bound(s, chosen, kind, zone, at, reason);
            && (r.Ok? <==> CanTell(s, at, reason, if kind in s.active then 4 else 3))
            && (r.Ok? ==> r.value == chosen && Tells(s.events, t.events, at, HandoffBodies(s, chosen, kind, zone, reason))
                          && t == s.(events := t.events, active := s.active[kind := chosen.resource.id],
                                     zones := s.zones[kind := zone], needs := s.needs[kind := chosen.dependency]))
  {
    hide IsIdentifier;
  }

  /** A handoff returns exactly when there is a resource for it, a dependency that can be
      read and room, time and a reason for its events. */
  lemma HandoffReturnsExactlyWhen(s: Runtime, kind: string, zone: string, at: real, reason: string, need: Requirement)
    requires UniqueIds(s.resources)
    ensures HandedOff(s, kind, zone, at, reason, need).1.Ok? <==>
              && IsIdentifier(kind) && IsIdentifier(zone) && !need.Malformed?
              && exists r :: IsFirst(s, kind, zone, r) && CanTell(s, at, reason, ToTell(s, kind, r))
  {
    hide Bound, Retained, Chosen, IsFirst, CanTell, Tells, Eligible, IsIdentifier, HandoffBodies, IsOrderOf;
    ChosenIsFirst(s, kind, zone, need);
    var chosen := Chosen(s, kind, zone, need);
    forall r | chosen.Ok? && IsFirst(s, kind, zone, r)
      ensures r == chosen.value.resource
    {
      FirstIsOne(s, kind, zone, r, chosen.value.resource);
    }
    if chosen.Err? {
      FirstCould(s, kind, zone);
    } else if Retains(s, kind, chosen.value) {
      RetainedTells(s, chosen.value, kind, zone, at, reason);
    } else {
      BoundTells(s, chosen.value, kind, zone, at, reason);
    }
  }

  lemma FirstCould(s: Runtime, kind: string, zone: string)
    ensures (exists r :: IsFirst(s, kind, zone, r)) ==> exists r :: r in s.resources && Eligible(r, kind, zone, s.healthy)
  {
    hide Eligible, Before;
  }

  /** A handoff that returns gives the first resource of all that could serve, leased for
      the zone under the dependency stated or else its own; it changes no other kind's
      lease, and its events name what was chosen and what was let go. */
  lemma ReturnedHandoffTells(s: Runtime, kind: string, zone: string, at: real, reason: string, need: Requirement)
    requires UniqueIds(s.resources) && HandedOff(s, kind, zone, at, reason, need).1.Ok?
    ensures var (t, r) := HandedOff(s, kind, zone, at, reason, need);
            && IsChoice(s, kind, zone, need, r.value)
            && t == s.(active := s.active[kind := r.value.resource.id], zones := s.zones[kind := zone],
                       needs := s.needs[kind := r.value.dependency], events := t.events)
            && Tells(s.events, t.events, at, HandoffBodies(s, r.value, kind, zone, reason))
  {
    hide Bound, Retained, Chosen, IsChoice, CanTell, Tells, Eligible, IsIdentifier, HandoffBodies;
    ChosenIsFirst(s, kind, zone, need);
    var chosen := Chosen(s, kind, zone, need).value;
    if Retains(s, kind, chosen) {
      RetainedTells(s, chosen, kind, zone, at, reason);
      assert s.active[kind := chosen.resource.id] == s.active;
    } else {
      BoundTells(s, chosen, kind, zone, at, reason);
    }
  }

  // ---------------------------------------------------------------------------
  // A change of health
  // ---------------------------------------------------------------------------

  /** What an unhindered change of health tells: the change, if it is one, and of a lease
      lost by it whether another resource could serve, and its release. */
  function HealthBodies(s: Runtime, r: Resource, healthy: bool, reason: string, fallback: bool): seq<Body> {
    (if IsHealthy(s.healthy, r.id) != healthy then [HealthChanged(r.id, healthy, reason)] else [])
    + (if !healthy && r.kind in s.active && s.active[r.kind] == r.id
       then [Assessed(r.id, r.kind, fallback), LeaseReleased(r.id, r.kind, "active_resource_unhealthy")] else [])
  }

  /** Another resource could serve the zone the lease is held for. */
  ghost predicate OtherServes(s: Runtime, r: Resource) {
    var zone := if r.kind in s.zones then s.zones[r.kind] else r.zone;
    IsIdentifier(r.kind) && IsIdentifier(zone)
    && exists q :: q in s.resources && q.id != r.id && Eligible(q, r.kind, zone, s.healthy)
  }

  /** With the resource unhealthy, a fallback is another one. */
  lemma FallbackIsOther(s: Runtime, t: Runtime, r: Resource)
    requires UniqueIds(s.resources) && t.resources == s.resources && t.zones == s.zones
    requires t.healthy == s.healthy[r.id := false]
    ensures FallbackAvailable(t, r, if r.kind in t.zones then t.zones[r.kind] else r.zone) <==> OtherServes(s, r)
  {
    hide IsIdentifier, UniqueIds, Covers, Before, Candidates, InOrder;
    var zone := if r.kind in t.zones then t.zones[r.kind] else r.zone;
    if IsIdentifier(r.kind) && IsIdentifier(zone) {
      SelectionIsFirst(t.resources, r.kind, zone, t.healthy);
      assert forall q :: Eligible(q, r.kind, zone, t.healthy) <==> q.id != r.id && Eligible(q, r.kind, zone, s.healthy);
    }
  }

  lemma LetGoTells(s: Runtime, r: Resource, at: real)
    requires LetGo(s, r, at).1.Ok?
    ensures var t := LetGo(s, r, at).0;
            && t == s.(events := t.events, active := s.active - {r.kind}, zones := s.zones - {r.kind},
                       needs := s.needs - {r.kind})
            && var zone := if r.kind in s.zones then s.zones[r.kind] else r.zone;
               Tells(s.events, t.events, at, [Assessed(r.id, r.kind, FallbackAvailable(s, r, zone)),
                                              LeaseReleased(r.id, r.kind, "active_resource_unhealthy")])
  {
    hide FallbackAvailable;
  }

  lemma ToldAfter(before: seq<Event>, between: seq<Event>, after: seq<Event>, at: real, first: seq<Body>, second: seq<Body>)
    requires Tells(before, between, at, first) && Tells(between, after, at, second)
    ensures Tells(before, after, at, first + second)
  {
    assert after[..|before|] == between[..|before|];
    assert forall k :: |before| <= k < |between| ==> after[k] == after[..|between|][k];
  }

  /** A change of health that returns is told of, takes effect on that resource alone and
      ends its lease, and no other, when it is lost. */
  lemma ReturnedHealthTells(s: Runtime, id: string, healthy: bool, at: real, reason: string)
    requires UniqueIds(s.resources) && HealthSet(s, id, healthy, at, reason).1.Ok?
    ensures var t, found := HealthSet(s, id, healthy, at, reason).0, Find(s, id);
            && found.Ok? && found.value.id == id && found.value in s.resources
            && (var lost := if LosesLease(s, id, healthy) then {found.value.kind} else {};
                t == s.(healthy := s.healthy[id := healthy], active := s.active - lost, zones := s.zones - lost,
                        needs := s.needs - lost, events := t.events))
            && Tells(s.events, t.events, at, HealthBodies(s, found.value, healthy, reason, OtherServes(s, found.value)))
  {
    hide Find, LetGo, Tells, OtherServes, IsIdentifier, FallbackAvailable, UniqueIds;
    FoundIsNamed(s, id);
    var r := Find(s, id).value;
    var s1 := s.(healthy := s.healthy[id := healthy]);
    var body := HealthChanged(id, healthy, reason);
    var (s2, noted) := if IsHealthy(s.healthy, id) != healthy then RecordedFor(s1, reason, at, body) else (s1, Ok(()));
    var changed := if IsHealthy(s.healthy, id) != healthy then [body] else [];
    TellsNothing(s.events, at);
    if IsHealthy(s.healthy, id) != healthy {
      TellsMore(s.events, s.events, s2.events, at, [], body);
      assert [] + [body] == [body];
    }
    assert Tells(s.events, s2.events, at, changed);
    if LosesLease(s, id, healthy) {
      LetGoTells(s2, r, at);
      FallbackIsOther(s, s2, r);
      ToldAfter(s.events, s2.events, LetGo(s2, r, at).0.events, at, changed,
                [Assessed(id, r.kind, OtherServes(s, r)), LeaseReleased(id, r.kind, "active_resource_unhealthy")]);
    } else {
      assert changed + [] == changed;
      assert s.active - {} == s.active && s.zones - {} == s.zones && s.needs - {} == s.needs;
    }
  }

  // ---------------------------------------------------------------------------
  // Streams
  // ---------------------------------------------------------------------------

  /** Each stream is announced once at most, and only when a frame of it was seen. */
  ghost predicate AnnouncedOnce(s: Runtime) {
    && (forall i :: 0 <= i < |s.events| && s.events[i].body.StreamReady? ==> s.events[i].body.id in s.seen)
    && (forall i, j :: 0 <= i < j < |s.events| && s.events[i].body.StreamReady? && s.events[j].body.StreamReady? ==>
          s.events[i].body.id != s.events[j].body.id)
  }

  /** More events, none of which announces a stream. */
  ghost predicate AnnouncesNothing(s: Runtime, t: Runtime) {
    && t.seen == s.seen && s.events <= t.events
    && forall i :: |s.events| <= i < |t.events| ==> !t.events[i].body.StreamReady?
  }

  lemma RecordedAnnouncesNothing(s: Runtime, reason: string, at: real, body: Body)
    requires !body.StreamReady?
    ensures AnnouncesNothing(s, Recorded(s, at, body).0) && AnnouncesNothing(s, RecordedFor(s, reason, at, body).0)
  {
  }

  lemma StillOnce(s: Runtime, t: Runtime)
    requires AnnouncedOnce(s) && AnnouncesNothing(s, t)
    ensures AnnouncedOnce(t)
  {
    assert forall i :: 0 <= i < |s.events| ==> t.events[i] == s.events[i];
  }

  lemma BoundAnnouncesNothing(s: Runtime, chosen: Selection, kind: string, zone: string, at: real, reason: string)
    ensures AnnouncesNothing(s, Bound(s, chosen, kind, zone, at, reason).0)
  {
    hide IsIdentifier, Recorded, RecordedFor;
    var r, need := chosen.resource, chosen.dependency;
    if kind in s.active {
      RecordedAnnouncesNothing(s, reason, at, LeaseReleased(s.active[kind], kind, ZONE_HANDOFF));
    }
    var s1 := Released(s, kind, at).0;
    var s2 := Holding(s1.(active := s1.active[kind := r.id]), kind, zone, need);
    var body := RouterSelected(r.id, kind, zone, r.adapter, r.endpoint, chosen.candidates, chosen.reason, reason, need.band);
    RecordedAnnouncesNothing(s2, reason, at, body);
    var s3 := RecordedFor(s2, reason, at, body).0;
    RecordedAnnouncesNothing(s3, reason, at, LeaseAcquired(r.id, kind, zone, need.band));
    var s4 := Recorded(s3, at, LeaseAcquired(r.id, kind, zone, need.band)).0;
    RecordedAnnouncesNothing(s4, reason, at, Assessed(r.id, kind, true));
  }

  lemma RetainedAnnouncesNothing(s: Runtime, chosen: Selection, kind: string, zone: string, at: real, reason: string)
    ensures AnnouncesNothing(s, Retained(s, chosen, kind, zone, at, reason).0)
  {
    hide IsIdentifier, Recorded, RecordedFor;
    var id, need := chosen.resource.id, chosen.dependency;
    var s0, kept := Holding(s, kind, zone, need), LeaseRetained(id, kind, zone, reason, need.band);
    RecordedAnnouncesNothing(s0, reason, at, kept);
    RecordedAnnouncesNothing(RecordedFor(s0, reason, at, kept).0, reason, at, Assessed(id, kind, true));
  }

  lemma HandoffAnnouncesNothing(s: Runtime, kind: string, zone: string, at: real, reason: string, need: Requirement)
    ensures AnnouncesNothing(s, HandedOff(s, kind, zone, at, reason, need).0)
  {
    hide Chosen, Bound, Retained;
    var chosen := Chosen(s, kind, zone, need);
    if chosen.Ok? {
      BoundAnnouncesNothing(s, chosen.value, kind, zone, at, reason);
      RetainedAnnouncesNothing(s, chosen.value, kind, zone, at, reason);
    }
  }

  lemma LetGoAnnouncesNothing(s: Runtime, r: Resource, at: real)
    ensures AnnouncesNothing(s, LetGo(s, r, at).0)
  {
    hide FallbackAvailable;
  }

  lemma HealthAnnouncesNothing(s: Runtime, id: string, healthy: bool, at: real, reason: string)
    ensures AnnouncesNothing(s, HealthSet(s, id, healthy, at, reason).0)
  {
    hide Find, LetGo, IsIdentifier, Recorded, RecordedFor;
    if Find(s, id).Ok? {
      var s1, body := s.(healthy := s.healthy[id := healthy]), HealthChanged(id, healthy, reason);
      RecordedAnnouncesNothing(s1, reason, at, body);
      LetGoAnnouncesNothing(s1, Find(s, id).value, at);
      LetGoAnnouncesNothing(RecordedFor(s1, reason, at, body).0, Find(s, id).value, at);
    }
  }

  /** A frame is told of exactly when it is the first of a known resource's stream, with
      that resource's kind and zone. */
  lemma FrameTells(s: Runtime, id: string, at: real)
    ensures var (t, r) := FrameSeen(s, id, at);
            && (r.Ok? <==> Find(s, id).Ok? && (id in s.seen || (0.0 <= at <= 86400.0 && |s.events| < 512)))
            && (r.Ok? ==> t == s.(seen := s.seen + {id}, events := t.events)
                          && Tells(s.events, t.events, at, if id in s.seen then []
                                   else [StreamReady(id, Find(s, id).value.kind, Find(s, id).value.zone)]))
  {
    hide Find;
    assert id in s.seen ==> s.seen + {id} == s.seen;
  }

  lemma FrameKeepsOnce(s: Runtime, id: string, at: real)
    requires AnnouncedOnce(s)
    ensures AnnouncedOnce(FrameSeen(s, id, at).0)
  {
    hide Find;
  }

  /** Over any calls, whether they return or raise, each stream is announced at most once. */
  lemma {:induction false} StreamsAnnouncedOnce(s: Runtime, calls: seq<Call>)
    requires AnnouncedOnce(s)
    ensures AnnouncedOnce(After(s, calls))
    decreases |calls|
  {
    hide AnnouncedOnce, AnnouncesNothing, HandedOff, HealthSet, FrameSeen, Find;
    if calls != [] {
      var t := Called(s, calls[0]).0;
      match calls[0] {
        case Handoff(kind, zone, at, reason, need) =>
          HandoffAnnouncesNothing(s, kind, zone, at, reason, need);
          StillOnce(s, t);
        case SetHealth(id, healthy, at, reason) =>
          HealthAnnouncesNothing(s, id, healthy, at, reason);
          StillOnce(s, t);
        case ObserveFrame(id, at) => FrameKeepsOnce(s, id, at);
        case AssessDependency(id, at, need, fallback) =>
          AssessedAnnouncesNothing(s, id, at, need, fallback);
          StillOnce(s, t);
      }
      StreamsAnnouncedOnce(t, calls[1..]);
    }
  }

  lemma AssessedAnnouncesNothing(s: Runtime, id: string, at: real, need: Requirement, fallback: bool)
    ensures AnnouncesNothing(s, DependencyAssessed(s, id, at, need, fallback).0)
  {
    hide Find;
  }
}
