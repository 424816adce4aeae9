/** Runs of calls on a facility runtime (flyto_robotics/facility_resources.py). */
module FacilityRuns {
  import opened Wrappers
  import opened FacilityCatalog
  import opened FacilityRuntime
  import opened FacilityReplay

  datatype Call =
    | Handoff(kind: string, zone: string, at: real, reason: string, need: Requirement)
    | SetHealth(id: string, healthy: bool, at: real, reason: string)
    | ObserveFrame(id: string, at: real)
    | AssessDependency(id: string, at: real, need: Requirement, fallback: bool)

  /** The runtime after a call, and whether the call returned. */
  function Called(s: Runtime, call: Call): (Runtime, bool) {
    match call
    case Handoff(kind, zone, at, reason, need) =>
      (HandedOff(s, kind, zone, at, reason, need).0, HandedOff(s, kind, zone, at, reason, need).1.Ok?)
    case SetHealth(id, healthy, at, reason) =>
      (HealthSet(s, id, healthy, at, reason).0, HealthSet(s, id, healthy, at, reason).1.Ok?)
    case ObserveFrame(id, at) => (FrameSeen(s, id, at).0, FrameSeen(s, id, at).1.Ok?)
    case AssessDependency(id, at, need, fallback) =>
      (DependencyAssessed(s, id, at, need, fallback).0, DependencyAssessed(s, id, at, need, fallback).1.Ok?)
  }

  /** Every call returns, or raises before changing anything. */
  predicate AllReturn(s: Runtime, calls: seq<Call>)
    decreases |calls|
  {
    calls == [] || ((Called(s, calls[0]).1 || Called(s, calls[0]).0 == s) && AllReturn(Called(s, calls[0]).0, calls[1..]))
  }

  function After(s: Runtime, calls: seq<Call>): Runtime
    decreases |calls|
  {
    if calls == [] then s else After(Called(s, calls[0]).0, calls[1..])
  }

  // ---------------------------------------------------------------------------
  // Active leases serve
  // ---------------------------------------------------------------------------

  /** A lease is a healthy resource of its kind that covers the zone it is held for. */
  ghost predicate Serves(s: Runtime, kind: string) {
    && kind in s.active && kind in s.zones
    && exists r :: r in s.resources && r.id == s.active[kind] && r.kind == kind && IsHealthy(s.healthy, r.id)
                   && Covers(r, s.zones[kind])
  }

  ghost predicate AllServe(s: Runtime) {
    forall kind :: kind in s.active ==> Serves(s, kind)
  }

  /** The runtime's own books: unique ids, all of them in the health map. */
  ghost predicate Kept(s: Runtime) {
    UniqueIds(s.resources) && (forall r :: r in s.resources ==> r.id in s.healthy)
  }

  ghost predicate SameBooks(s: Runtime, t: Runtime) {
    && t.resources == s.resources && t.healthy == s.healthy && t.active == s.active && t.zones == s.zones && t.needs == s.needs
  }

  lemma RecordedKeepsBooks(s: Runtime, reason: string, at: real, body: Body)
    ensures SameBooks(s, Recorded(s, at, body).0) && SameBooks(s, RecordedFor(s, reason, at, body).0)
  {
  }

  lemma SameBooksServe(s: Runtime, t: Runtime)
    requires SameBooks(s, t)
    ensures (AllServe(s) <==> AllServe(t)) && (Kept(s) <==> Kept(t))
  {
    hide Covers, IsHealthy, UniqueIds;
    forall kind
      ensures Serves(s, kind) <==> Serves(t, kind)
    {
    }
  }

  lemma NewLeaseServes(s: Runtime, t: Runtime, kind: string, zone: string, r: Resource)
    requires AllServe(s) && r in s.resources && Eligible(r, kind, zone, s.healthy)
    requires t.resources == s.resources && t.healthy == s.healthy
    requires t.active == s.active[kind := r.id] && t.zones == s.zones[kind := zone]
    ensures AllServe(t)
  {
    hide Covers, IsHealthy;
    forall k | k in t.active
      ensures Serves(t, k)
    {
      if k != kind {
        assert Serves(s, k);
      } else {
        assert r in t.resources && r.id == t.active[kind];
      }
    }
  }

  /** What a handoff leaves in the books: nothing changed, or the new lease. */
  lemma BoundBooks(s: Runtime, selection: Selection, kind: string, zone: string, at: real, reason: string)
    ensures var t := Bound(s, selection, kind, zone, at, reason).0;
            && t.resources == s.resources && t.healthy == s.healthy
            && ((t.active == s.active && t.zones == s.zones)
                || (t.active == s.active[kind := selection.resource.id] && t.zones == s.zones[kind := zone]))
  {
    hide Recorded, IsIdentifier;
    var r, need := selection.resource, selection.dependency;
    var (s1, released) := Released(s, kind, at);
    if kind in s.active {
      RecordedKeepsBooks(s, reason, at, LeaseReleased(s.active[kind], kind, ZONE_HANDOFF));
      assert SameBooks(s, s1);
    }
    if released.Ok? {
      var s2 := Holding(s1.(active := s1.active[kind := r.id]), kind, zone, need);
      var body := RouterSelected(r.id, kind, zone, r.adapter, r.endpoint, selection.candidates, selection.reason,
                                 reason, need.band);
      RecordedKeepsBooks(s2, reason, at, body);
      var (s3, routed) := RecordedFor(s2, reason, at, body);
      RecordedKeepsBooks(s3, reason, at, LeaseAcquired(r.id, kind, zone, need.band));
      var (s4, acquired) := Recorded(s3, at, LeaseAcquired(r.id, kind, zone, need.band));
      RecordedKeepsBooks(s4, reason, at, Assessed(r.id, kind, true));
      if routed.Err? {
        assert Bound(s, selection, kind, zone, at, reason).0 == s3;
      } else if acquired.Err? {
        assert Bound(s, selection, kind, zone, at, reason).0 == s4;
      } else {
        assert Bound(s, selection, kind, zone, at, reason).0 == Recorded(s4, at, Assessed(r.id, kind, true)).0;
      }
    } else {
      assert Bound(s, selection, kind, zone, at, reason).0 == s1;
    }
  }

  lemma RetainedBooks(s: Runtime, selection: Selection, kind: string, zone: string, at: real, reason: string)
    requires Retains(s, kind, selection)
    ensures var t := Retained(s, selection, kind, zone, at, reason).0;
            && t.resources == s.resources && t.healthy == s.healthy
            && t.active == s.active[kind := selection.resource.id] && t.zones == s.zones[kind := zone]
  {
    hide Recorded, IsIdentifier;
    var id, need := selection.resource.id, selection.dependency;
    var s0 := Holding(s, kind, zone, need);
    RecordedKeepsBooks(s0, reason, at, LeaseRetained(id, kind, zone, reason, need.band));
    var (s1, kept) := RecordedFor(s0, reason, at, LeaseRetained(id, kind, zone, reason, need.band));
    RecordedKeepsBooks(s1, reason, at, Assessed(id, kind, true));
    assert s.active[kind := id] == s.active;
    if kept.Ok? {
      assert Retained(s, selection, kind, zone, at, reason).0 == Recorded(s1, at, Assessed(id, kind, true)).0;
    } else {
      assert Retained(s, selection, kind, zone, at, reason).0 == s1;
    }
  }

  /** A handoff, whether it returns or raises, leaves only leases that serve. */
  lemma HandoffServes(s: Runtime, kind: string, zone: string, at: real, reason: string, need: Requirement)
    requires Kept(s) && AllServe(s)
    ensures Kept(HandedOff(s, kind, zone, at, reason, need).0) && AllServe(HandedOff(s, kind, zone, at, reason, need).0)
  {
    hide Retained, Bound, Select, Serves, Eligible, IsIdentifier, UniqueIds;
    var chosen := Chosen(s, kind, zone, need);
    var t := HandedOff(s, kind, zone, at, reason, need).0;
    if chosen.Ok? {
      ChosenIsEligible(s, kind, zone, need);
      if Retains(s, kind, chosen.value) {
        RetainedBooks(s, chosen.value, kind, zone, at, reason);
      } else {
        BoundBooks(s, chosen.value, kind, zone, at, reason);
      }
      if t.active == s.active && t.zones == s.zones {
        SameLeasesServe(s, t);
      } else {
        NewLeaseServes(s, t, kind, zone, chosen.value.resource);
      }
    }
  }

  lemma SameLeasesServe(s: Runtime, t: Runtime)
    requires AllServe(s) && t.resources == s.resources && t.healthy == s.healthy && t.active == s.active && t.zones == s.zones
    ensures AllServe(t)
  {
    hide Covers, IsHealthy;
    forall kind | kind in t.active
      ensures Serves(t, kind)
    {
      assert Serves(s, kind);
    }
  }

  lemma ChosenIsEligible(s: Runtime, kind: string, zone: string, need: Requirement)
    requires UniqueIds(s.resources) && Chosen(s, kind, zone, need).Ok?
    ensures var r := Chosen(s, kind, zone, need).value.resource; r in s.resources && Eligible(r, kind, zone, s.healthy)
  {
    hide Eligible, Before, InOrder, Candidates, IsIdentifier;
    assert IsIdentifier(kind) && IsIdentifier(zone);
    SelectionIsFirst(s.resources, kind, zone, s.healthy);
  }

  /** A change of health that returns leaves only leases that serve. */
  lemma SetHealthServes(s: Runtime, id: string, healthy: bool, at: real, reason: string)
    requires Kept(s) && AllServe(s)
    ensures Kept(HealthSet(s, id, healthy, at, reason).0)
    ensures HealthSet(s, id, healthy, at, reason).1.Ok? ==> AllServe(HealthSet(s, id, healthy, at, reason).0)
  {
    hide Recorded, IsIdentifier, Find, LetGo, Covers, UniqueIds;
    var found := Find(s, id);
    if found.Ok? {
      FoundIsNamed(s, id);
      var r := found.value;
      var s1 := s.(healthy := s.healthy[id := healthy]);
      var body := HealthChanged(id, healthy, reason);
      RecordedKeepsBooks(s1, reason, at, body);
      var (s2, noted) := if IsHealthy(s.healthy, id) != healthy then RecordedFor(s1, reason, at, body) else (s1, Ok(()));
      assert SameBooks(s1, s2);
      OthersServe(s, s2, r, healthy);
      LetGoBooks(s2, r, at);
      if noted.Ok? && LosesLease(s, id, healthy) {
        assert HealthSet(s, id, healthy, at, reason) == LetGo(s2, r, at);
      } else {
        assert HealthSet(s, id, healthy, at, reason).0 == s2;
      }
    }
  }

  /** Only the resource's own lease can have stopped serving. */
  lemma OthersServe(s: Runtime, t: Runtime, r: Resource, healthy: bool)
    requires Kept(s) && AllServe(s) && r in s.resources
    requires t.resources == s.resources && t.active == s.active && t.zones == s.zones && t.healthy == s.healthy[r.id := healthy]
    ensures Kept(t)
    ensures forall kind :: kind in t.active && (healthy || kind != r.kind || t.active[kind] != r.id) ==> Serves(t, kind)
  {
    hide Covers;
    forall kind | kind in t.active && (healthy || kind != r.kind || t.active[kind] != r.id)
      ensures Serves(t, kind)
    {
      assert Serves(s, kind);
      var q :| q in s.resources && q.id == s.active[kind] && q.kind == kind
               && IsHealthy(s.healthy, q.id) && Covers(q, s.zones[kind]);
      if q.id == r.id {
        SameResource(s.resources, q, r);
      }
      assert q in t.resources && IsHealthy(t.healthy, q.id);
    }
  }

  lemma SameResource(resources: seq<Resource>, q: Resource, r: Resource)
    requires UniqueIds(resources) && q in resources && r in resources && q.id == r.id
    ensures q == r
  {
    var i :| 0 <= i < |resources| && resources[i] == q;
    var j :| 0 <= j < |resources| && resources[j] == r;
  }

  lemma LetGoBooks(s: Runtime, r: Resource, at: real)
    ensures var (t, done) := LetGo(s, r, at);
            && t.resources == s.resources && t.healthy == s.healthy
            && (done.Ok? ==> t.active == s.active - {r.kind} && t.zones == s.zones - {r.kind})
    ensures Kept(s) ==> Kept(LetGo(s, r, at).0)
    ensures (forall kind :: kind in s.active && kind != r.kind ==> Serves(s, kind))
            ==> LetGo(s, r, at).1.Ok? ==> AllServe(LetGo(s, r, at).0)
  {
    hide Recorded, FallbackAvailable, Covers, IsHealthy, UniqueIds;
    var zone := if r.kind in s.zones then s.zones[r.kind] else r.zone;
    var body := Assessed(r.id, r.kind, FallbackAvailable(s, r, zone));
    RecordedKeepsBooks(s, "", at, body);
    var (s1, assessed) := Recorded(s, at, body);
    var s2 := s1.(active := s1.active - {r.kind}, zones := s1.zones - {r.kind}, needs := s1.needs - {r.kind});
    RecordedKeepsBooks(s2, "", at, LeaseReleased(r.id, r.kind, UNHEALTHY));
    if assessed.Ok? {
      assert LetGo(s, r, at) == Recorded(s2, at, LeaseReleased(r.id, r.kind, UNHEALTHY));
      var t := LetGo(s, r, at).0;
      forall kind | kind in t.active && Serves(s, kind)
        ensures Serves(t, kind)
      {
      }
    } else {
      assert LetGo(s, r, at).0 == s1;
    }
  }

  // ---------------------------------------------------------------------------
  // Runs
  // ---------------------------------------------------------------------------

  ghost predicate Right(s: Runtime) {
    Kept(s) && AllServe(s) && Rebuilds(s) && Alternates(s.resources, s.events)
  }

  lemma StartIsRight(resources: seq<Resource>)
    requires UniqueIds(resources)
    ensures Right(Started(resources))
  {
  }

  lemma HealthKnown(s: Runtime, id: string)
    requires Kept(s)
    ensures Find(s, id).Ok? ==> id in s.healthy
  {
    if Find(s, id).Ok? {
      FoundIsNamed(s, id);
    }
  }

  /** A handoff that returns recorded its binding. */
  lemma ReturnedHandoffRecorded(s: Runtime, kind: string, zone: string, at: real, reason: string, need: Requirement)
    requires Rebuilds(s) && Alternates(s.resources, s.events)
    requires HandedOff(s, kind, zone, at, reason, need).1.Ok? || HandedOff(s, kind, zone, at, reason, need).0 == s
    ensures !BindsUnrecorded(s, kind, zone, at, reason, need)
  {
    hide Replay, Alternates, Select, IsIdentifier;
    HandoffRebuildsExactlyWhen(s, kind, zone, at, reason, need);
  }

  lemma ReturnedHealthRecorded(s: Runtime, id: string, healthy: bool, at: real, reason: string)
    requires Rebuilds(s) && Alternates(s.resources, s.events) && Kept(s)
    requires HealthSet(s, id, healthy, at, reason).1.Ok? || HealthSet(s, id, healthy, at, reason).0 == s
    ensures !HealthUnrecorded(s, id, healthy, at, reason)
  {
    hide Replay, Alternates, Select, IsIdentifier, Find;
    HealthKnown(s, id);
    SetHealthRebuildsExactlyWhen(s, id, healthy, at, reason);
  }

  lemma OtherCallsRight(s: Runtime, call: Call)
    requires Right(s) && (call.ObserveFrame? || call.AssessDependency?)
    ensures Right(Called(s, call).0)
  {
    hide Recorded, Find, Serves, Replay, Alternates, UniqueIds;
    var t := Called(s, call).0;
    if call.ObserveFrame? && Find(s, call.id).Ok? {
      var s1 := s.(seen := s.seen + {call.id});
      var body := StreamReady(call.id, Find(s, call.id).value.kind, Find(s, call.id).value.zone);
      RecordedReplays(s1, call.at, body);
      RecordedKeepsBooks(s1, "", call.at, body);
      SameBooksServe(s, t);
    } else if call.AssessDependency? && Find(s, call.id).Ok? {
      var body := Assessed(call.id, Find(s, call.id).value.kind, call.fallback);
      RecordedReplays(s, call.at, body);
      RecordedKeepsBooks(s, "", call.at, body);
      SameBooksServe(s, t);
    }
  }

  lemma CallKeepsRight(s: Runtime, call: Call)
    requires Right(s) && (Called(s, call).1 || Called(s, call).0 == s)
    ensures Right(Called(s, call).0)
  {
    hide Kept, AllServe, Rebuilds, Alternates, HandedOff, HealthSet, BindsUnrecorded, HealthUnrecorded, Find, FrameSeen,
      DependencyAssessed;
    match call
    case Handoff(kind, zone, at, reason, need) =>
      HandoffRebuildsExactlyWhen(s, kind, zone, at, reason, need);
      ReturnedHandoffRecorded(s, kind, zone, at, reason, need);
      HandoffServes(s, kind, zone, at, reason, need);
    case SetHealth(id, healthy, at, reason) =>
      HealthKnown(s, id);
      SetHealthRebuildsExactlyWhen(s, id, healthy, at, reason);
      ReturnedHealthRecorded(s, id, healthy, at, reason);
      SetHealthServes(s, id, healthy, at, reason);
    case _ => OtherCallsRight(s, call);
  }

  lemma {:induction false} CallsKeepRight(s: Runtime, calls: seq<Call>)
    requires Right(s) && AllReturn(s, calls)
    ensures Right(After(s, calls))
    decreases |calls|
  {
    hide Right, Called;
    if calls != [] {
      CallKeepsRight(s, calls[0]);
      CallsKeepRight(Called(s, calls[0]).0, calls[1..]);
    }
  }

  /** In every run whose calls all return (or raise before changing anything):
      replaying the events rebuilds the leases and the health, each lease event fits
      the ones before it, and every lease is a healthy resource of its kind covering
      its zone. */
  lemma RunsReplay(resources: seq<Resource>, calls: seq<Call>)
    requires UniqueIds(resources) && AllReturn(Started(resources), calls)
    ensures var s := After(Started(resources), calls);
            && Replay(s.resources, s.events) == Replayed(s.active, s.healthy)
            && Alternates(s.resources, s.events)
            && forall kind :: kind in s.active ==> Serves(s, kind)
  {
    hide AllReturn, After, Alternates, Serves, Replay;
    StartIsRight(resources);
    CallsKeepRight(Started(resources), calls);
  }

  /** Between two acquisitions of a kind lies the release of the first. */
  lemma AcquiredThenReleased(resources: seq<Resource>, events: seq<Event>, i: nat, j: nat)
    requires Alternates(resources, events) && i < j < |events|
    requires events[i].body.LeaseAcquired? && events[j].body.LeaseAcquired? && events[i].body.kind == events[j].body.kind
    ensures exists k :: i < k < j && events[k].body.LeaseReleased? && events[k].body.kind == events[i].body.kind
  {
    hide Replay;
    var kind := events[i].body.kind;
    assert events[..i + 1] == events[..i] + [events[i]];
    ReplayNext(resources, events[..i], events[i]);
    LeaseStays(resources, events, i + 1, j, kind);
  }

  /** A kind's lease stays until it is released. */
  lemma {:induction false} LeaseStays(resources: seq<Resource>, events: seq<Event>, i: nat, j: nat, kind: string)
    requires i <= j <= |events| && kind in Replay(resources, events[..i]).active
    ensures kind in Replay(resources, events[..j]).active
            || exists k :: i <= k < j && events[k].body.LeaseReleased? && events[k].body.kind == kind
    decreases j - i
  {
    hide Replay;
    if i < j {
      LeaseStays(resources, events, i, j - 1, kind);
      assert events[..j] == events[..j - 1] + [events[j - 1]];
      ReplayNext(resources, events[..j - 1], events[j - 1]);
    }
  }

  /** A handoff outside the run window binds a resource of an unleased kind and records
      nothing: the events then miss a lease. */
  lemma UnrecordedLease(resources: seq<Resource>, kind: string, zone: string, at: real, reason: string)
    requires UniqueIds(resources) && Select(resources, kind, zone, Started(resources).healthy).Ok? && at > RUN_WINDOW
    ensures var (s, r) := HandedOff(Started(resources), kind, zone, at, reason, UseDefault);
            r.Err? && kind in s.active && s.events == [] && !Rebuilds(s)
  {
    hide Select, IsIdentifier;
    var s0 := Started(resources);
    StartIsRight(resources);
    HandoffRebuildsExactlyWhen(s0, kind, zone, at, reason, UseDefault);
    var chosen := Chosen(s0, kind, zone, UseDefault).value;
    assert Released(s0, kind, at) == (s0, Ok(()));
  }

  /** Nor does a change of health outside the run window: a resource is down and no
      event says so. */
  lemma UnrecordedHealth(resources: seq<Resource>, id: string, at: real, reason: string)
    requires UniqueIds(resources) && Find(Started(resources), id).Ok? && at > RUN_WINDOW
    ensures HealthUnrecorded(Started(resources), id, false, at, reason)
    ensures var (s, r) := HealthSet(Started(resources), id, false, at, reason);
            r.Err? && !IsHealthy(s.healthy, id) && s.events == [] && !Rebuilds(s)
  {
    hide Find, IsIdentifier;
    var s0 := Started(resources);
    StartIsRight(resources);
    HealthKnown(s0, id);
    SetHealthRebuildsExactlyWhen(s0, id, false, at, reason);
    FoundIsNamed(s0, id);
  }
}
