/** Health, leases and handoff of a facility's resources, each change recorded as an
    event (flyto_robotics/facility_resources.py). A call that raises keeps what it
    had changed by then. */
module FacilityRuntime {
  import opened Wrappers
  import opened FacilityCatalog

  const MAX_EVENTS := 512
  const RUN_WINDOW := 86400.0
  const ZONE_HANDOFF := "zone_handoff"
  const UNHEALTHY := "active_resource_unhealthy"

  datatype Body =
    | StreamReady(id: string, kind: string, zone: string)
    | HealthChanged(id: string, healthy: bool, reason: string)
    | LeaseRetained(id: string, kind: string, zone: string, reason: string, band: string)
    | LeaseReleased(id: string, kind: string, reason: string)
    | RouterSelected(id: string, kind: string, zone: string, adapter: string, endpoint: string, candidates: seq<string>,
                     selected: Reason, trigger: string, band: string)
    | LeaseAcquired(id: string, kind: string, zone: string, band: string)
    | Assessed(id: string, kind: string, fallback: bool)

  datatype Event = Event(sequence: nat, at: real, body: Body)

  datatype Runtime = Runtime(resources: seq<Resource>, healthy: map<string, bool>, active: map<string, string>,
                             zones: map<string, string>, needs: map<string, Dependency>, seen: set<string>, events: seq<Event>)

  /** The dependency a handoff asks for, parsed or not. */
  datatype Requirement = UseDefault | Stated(dependency: Dependency) | Malformed

  predicate InWindow(at: real) {
    0.0 <= at <= RUN_WINDOW
  }

  function Recorded(s: Runtime, at: real, body: Body): (Runtime, Result<(), FacilityError>) {
    if !InWindow(at) then (s, Err(OutsideRunWindow))
    else if |s.events| >= MAX_EVENTS then (s, Err(EventLimit))
    else (s.(events := s.events + [Event(|s.events| + 1, at, body)]), Ok(()))
  }

  /** Recorded with a reason, which is checked first. */
  function RecordedFor(s: Runtime, reason: string, at: real, body: Body): (Runtime, Result<(), FacilityError>) {
    if !IsIdentifier(reason) then (s, Err(NotAnIdentifier)) else Recorded(s, at, body)
  }

  function Named(resources: seq<Resource>, id: string): (r: Option<Resource>)
    ensures r.Some? ==> r.value in resources && r.value.id == id
  {
    if resources == [] then None
    else if resources[0].id == id then Some(resources[0])
    else Named(resources[1..], id)
  }

  function Find(s: Runtime, id: string): Result<Resource, FacilityError> {
    if !IsIdentifier(id) then Err(NotAnIdentifier)
    else
      match Named(s.resources, id)
      case None => Err(UnknownResource)
      case Some(r) => Ok(r)
  }

  // ---------------------------------------------------------------------------
  // Handoff
  // ---------------------------------------------------------------------------

  function Holding(s: Runtime, kind: string, zone: string, need: Dependency): Runtime {
    s.(zones := s.zones[kind := zone], needs := s.needs[kind := need])
  }

  function Retained(s: Runtime, selection: Selection, kind: string, zone: string, at: real, reason: string)
    : (Runtime, Result<Selection, FacilityError>)
  {
    var id, need := selection.resource.id, selection.dependency;
    var (s1, kept) := RecordedFor(Holding(s, kind, zone, need), reason, at, LeaseRetained(id, kind, zone, reason, need.band));
    if kept.Err? then (s1, Err(kept.error))
    else
      var (s2, assessed) := Recorded(s1, at, Assessed(id, kind, true));
      (s2, if assessed.Err? then Err(assessed.error) else Ok(selection))
  }

  function Released(s: Runtime, kind: string, at: real): (Runtime, Result<(), FacilityError>) {
    if kind in s.active then Recorded(s, at, LeaseReleased(s.active[kind], kind, ZONE_HANDOFF)) else (s, Ok(()))
  }

  function Bound(s: Runtime, selection: Selection, kind: string, zone: string, at: real, reason: string)
    : (Runtime, Result<Selection, FacilityError>)
  {
    var r, need := selection.resource, selection.dependency;
    var (s1, released) := Released(s, kind, at);
    if released.Err? then (s1, Err(released.error))
    else
      var s2 := Holding(s1.(active := s1.active[kind := r.id]), kind, zone, need);
      var body := RouterSelected(r.id, kind, zone, r.adapter, r.endpoint, selection.candidates, selection.reason,
                                 reason, need.band);
      var (s3, routed) := RecordedFor(s2, reason, at, body);
      if routed.Err? then (s3, Err(routed.error))
      else
        var (s4, acquired) := Recorded(s3, at, LeaseAcquired(r.id, kind, zone, need.band));
        if acquired.Err? then (s4, Err(acquired.error))
        else
          var (s5, assessed) := Recorded(s4, at, Assessed(r.id, kind, true));
          (s5, if assessed.Err? then Err(assessed.error) else Ok(selection))
  }

  /** What `Select` finds, its dependency replaced by a stated one. */
  function Chosen(s: Runtime, kind: string, zone: string, need: Requirement): Result<Selection, FacilityError> {
    var found := Select(s.resources, kind, zone, s.healthy);
    if found.Err? then Err(found.error)
    else
      match need
      case UseDefault => Ok(found.value)
      case Stated(dependency) => Ok(found.value.(dependency := dependency))
      case Malformed => Err(BadDependency)
  }

  function HandedOff(s: Runtime, kind: string, zone: string, at: real, reason: string, need: Requirement)
    : (Runtime, Result<Selection, FacilityError>)
  {
    var chosen := Chosen(s, kind, zone, need);
    if chosen.Err? then (s, Err(chosen.error))
    else if kind in s.active && s.active[kind] == chosen.value.resource.id
    then Retained(s, chosen.value, kind, zone, at, reason)
    else Bound(s, chosen.value, kind, zone, at, reason)
  }

  // ---------------------------------------------------------------------------
  // Health, streams and assessments
  // ---------------------------------------------------------------------------

  function FallbackAvailable(s: Runtime, r: Resource, zone: string): bool {
    var found := Select(s.resources, r.kind, zone, s.healthy);
    found.Ok? && found.value.resource.id != r.id
  }

  /** An unhealthy resource's lease, assessed and let go. */
  function LetGo(s: Runtime, r: Resource, at: real): (Runtime, Result<(), FacilityError>) {
    var zone := if r.kind in s.zones then s.zones[r.kind] else r.zone;
    var (s1, assessed) := Recorded(s, at, Assessed(r.id, r.kind, FallbackAvailable(s, r, zone)));
    if assessed.Err? then (s1, assessed)
    else
      Recorded(s1.(active := s1.active - {r.kind}, zones := s1.zones - {r.kind}, needs := s1.needs - {r.kind}), at,
               LeaseReleased(r.id, r.kind, UNHEALTHY))
  }

  function HealthSet(s: Runtime, id: string, healthy: bool, at: real, reason: string): (Runtime, Result<(), FacilityError>) {
    var found := Find(s, id);
    if found.Err? then (s, Err(found.error))
    else
      var r := found.value;
      var s1 := s.(healthy := s.healthy[id := healthy]);
      var (s2, noted) := if IsHealthy(s.healthy, id) != healthy
                         then RecordedFor(s1, reason, at, HealthChanged(id, healthy, reason)) else (s1, Ok(()));
      if noted.Err? then (s2, noted)
      else if healthy || r.kind !in s2.active || s2.active[r.kind] != id then (s2, Ok(()))
      else LetGo(s2, r, at)
  }

  function FrameSeen(s: Runtime, id: string, at: real): (Runtime, Result<(), FacilityError>) {
    var found := Find(s, id);
    if found.Err? then (s, Err(found.error))
    else if id in s.seen then (s, Ok(()))
    else Recorded(s.(seen := s.seen + {id}), at, StreamReady(id, found.value.kind, found.value.zone))
  }

  function DependencyAssessed(s: Runtime, id: string, at: real, need: Requirement, fallback: bool)
    : (Runtime, Result<(), FacilityError>)
  {
    var found := Find(s, id);
    if found.Err? then (s, Err(found.error))
    else if need.Malformed? then (s, Err(BadDependency))
    else Recorded(s, at, Assessed(id, found.value.kind, fallback))
  }

  function Started(resources: seq<Resource>): Runtime {
    Runtime(resources, map r | r in resources :: r.id := true, map[], map[], map[], {}, [])
  }

  // ---------------------------------------------------------------------------
  // The runtime object
  // ---------------------------------------------------------------------------

  class FacilityResourceRuntime {
    const resources: seq<Resource>
    var healthy: map<string, bool>
    var active: map<string, string>
    var zones: map<string, string>
    var needs: map<string, Dependency>
    var seen: set<string>
    var events: seq<Event>

    ghost function State(): Runtime
      reads this
    {
      Runtime(resources, healthy, active, zones, needs, seen, events)
    }

    constructor (resources: seq<Resource>)
      ensures State() == Started(resources)
    {
      this.resources := resources;
      healthy := map r | r in resources :: r.id := true;
      active, zones, needs, seen, events := map[], map[], map[], {}, [];
    }

    method Record(at: real, body: Body) returns (r: Result<(), FacilityError>)
      modifies this`events
      ensures (State(), r) == Recorded(old(State()), at, body)
    {
      if !(0.0 <= at <= RUN_WINDOW) {
        return Err(OutsideRunWindow);
      }
      if |events| >= MAX_EVENTS {
        return Err(EventLimit);
      }
      events := events + [Event(|events| + 1, at, body)];
      r := Ok(());
    }

    /** The first resource of that id. */
    method Resource(id: string) returns (r: Result<Resource, FacilityError>)
      ensures r == Find(State(), id)
    {
      if !IsIdentifier(id) {
        return Err(NotAnIdentifier);
      }
      for i := 0 to |resources|
        invariant Named(resources, id) == Named(resources[i..], id)
      {
        assert resources[i..][1..] == resources[i + 1..];
        if resources[i].id == id {
          return Ok(resources[i]);
        }
      }
      r := Err(UnknownResource);
    }

    method ObserveFrame(id: string, at: real) returns (r: Result<(), FacilityError>)
      modifies this
      ensures (State(), r) == FrameSeen(old(State()), id, at)
    {
      var found := Resource(id);
      if found.Err? { return Err(found.error); }
      if id in seen { return Ok(()); }
      seen := seen + {id};
      r := Record(at, StreamReady(id, found.value.kind, found.value.zone));
    }

    method SetHealth(id: string, healthy: bool, at: real, reason: string) returns (r: Result<(), FacilityError>)
      modifies this
      ensures (State(), r) == HealthSet(old(State()), id, healthy, at, reason)
    {
      hide Select, IsIdentifier;
      var found := Resource(id);
      if found.Err? { return Err(found.error); }
      var kind := found.value.kind;
      var previous := IsHealthy(this.healthy, id);
      this.healthy := this.healthy[id := healthy];
      if previous != healthy {
        if !IsIdentifier(reason) { return Err(NotAnIdentifier); }
        r := Record(at, HealthChanged(id, healthy, reason));
        if r.Err? { return; }
      }
      if healthy || kind !in active || active[kind] != id { return Ok(()); }
      var zone := if kind in zones then zones[kind] else found.value.zone;
      var fallback := Select(resources, kind, zone, this.healthy);
      r := Record(at, Assessed(id, kind, fallback.Ok? && fallback.value.resource.id != id));
      if r.Err? { return; }
      active, zones, needs := active - {kind}, zones - {kind}, needs - {kind};
      r := Record(at, LeaseReleased(id, kind, UNHEALTHY));
    }

    method Handoff(kind: string, zone: string, at: real, reason: string, need: Requirement)
      returns (r: Result<Selection, FacilityError>)
      modifies this
      ensures (State(), r) == HandedOff(old(State()), kind, zone, at, reason, need)
    {
      hide Select, IsIdentifier;
      var found := Select(resources, kind, zone, healthy);
      if found.Err? { return Err(found.error); }
      if need.Malformed? { return Err(BadDependency); }
      var selection := if need.Stated? then found.value.(dependency := need.dependency) else found.value;
      var id, requirement := selection.resource.id, selection.dependency;
      var recorded;
      if kind in active && active[kind] == id {
        zones, needs := zones[kind := zone], needs[kind := requirement];
        if !IsIdentifier(reason) { return Err(NotAnIdentifier); }
        recorded := Record(at, LeaseRetained(id, kind, zone, reason, requirement.band));
        if recorded.Err? { return Err(recorded.error); }
        recorded := Record(at, Assessed(id, kind, true));
        if recorded.Err? { return Err(recorded.error); }
        return Ok(selection);
      }
      if kind in active {
        recorded := Record(at, LeaseReleased(active[kind], kind, ZONE_HANDOFF));
        if recorded.Err? { return Err(recorded.error); }
      }
      active, zones, needs := active[kind := id], zones[kind := zone], needs[kind := requirement];
      if !IsIdentifier(reason) { return Err(NotAnIdentifier); }
      recorded := Record(at, RouterSelected(id, kind, zone, selection.resource.adapter, selection.resource.endpoint,
                                            selection.candidates, selection.reason, reason, requirement.band));
      if recorded.Err? { return Err(recorded.error); }
      recorded := Record(at, LeaseAcquired(id, kind, zone, requirement.band));
      if recorded.Err? { return Err(recorded.error); }
      recorded := Record(at, Assessed(id, kind, true));
      if recorded.Err? { return Err(recorded.error); }
      r := Ok(selection);
    }
  }
}
