/** Which facility resource serves a zone: the most local healthy one, then a declared
    fallback, in one order whatever order the catalog lists them in
    (flyto_robotics/facility_resources.py). */
module FacilityCatalog {
  import opened Wrappers

  const MAX_IDENTIFIER := 192
  const ANY_ZONE := "*"

  datatype FacilityError = NotAnIdentifier | NoResource | UnknownResource | BadDependency | OutsideRunWindow | EventLimit

  /** What a binding requires of its device; only its band is recorded here. */
  datatype Dependency = Dependency(band: string)

  datatype Resource = Resource(id: string, kind: string, zone: string, adapter: string, endpoint: string, priority: int,
                               fallbacks: seq<string>, dependency: Dependency)

  datatype Reason = ExactZone | DeclaredFallback

  datatype Selection = Selection(resource: Resource, candidates: seq<string>, reason: Reason, dependency: Dependency)

  predicate IsAlphanumeric(c: char) {
    'A' <= c <= 'Z' || 'a' <= c <= 'z' || '0' <= c <= '9'
  }

  predicate IsIdentifier(s: string) {
    && 1 <= |s| <= MAX_IDENTIFIER && IsAlphanumeric(s[0])
    && forall i :: 0 <= i < |s| ==> IsAlphanumeric(s[i]) || s[i] in "._:@*-"
  }

  /** A catalog's resources have ids of their own. */
  predicate UniqueIds(resources: seq<Resource>) {
    forall i, j :: 0 <= i < j < |resources| ==> resources[i].id != resources[j].id
  }

  predicate Covers(r: Resource, zone: string) {
    r.zone == zone || zone in r.fallbacks || ANY_ZONE in r.fallbacks
  }

  predicate IsHealthy(healthy: map<string, bool>, id: string) {
    id in healthy ==> healthy[id]
  }

  predicate Eligible(r: Resource, kind: string, zone: string, healthy: map<string, bool>) {
    r.kind == kind && IsHealthy(healthy, r.id) && Covers(r, zone)
  }

  function Candidates(resources: seq<Resource>, kind: string, zone: string, healthy: map<string, bool>): seq<Resource> {
    if resources == [] then []
    else
      var rest := Candidates(resources[1..], kind, zone, healthy);
      if Eligible(resources[0], kind, zone, healthy) then [resources[0]] + rest else rest
  }

  // ---------------------------------------------------------------------------
  // The order of candidates
  // ---------------------------------------------------------------------------

  predicate TextBefore(a: string, b: string) {
    if b == [] then false
    else if a == [] then true
    else if a[0] != b[0] then a[0] < b[0]
    else TextBefore(a[1..], b[1..])
  }

  /** In the zone first, then by priority, then by id. */
  predicate Before(zone: string, r: Resource, s: Resource) {
    if (r.zone != zone) != (s.zone != zone) then r.zone == zone
    else if r.priority != s.priority then r.priority < s.priority
    else TextBefore(r.id, s.id)
  }

  function Inserted(zone: string, sorted: seq<Resource>, r: Resource): seq<Resource> {
    if sorted == [] then [r]
    else if Before(zone, r, sorted[0]) then [r] + sorted
    else [sorted[0]] + Inserted(zone, sorted[1..], r)
  }

  function InOrder(zone: string, resources: seq<Resource>): seq<Resource> {
    if resources == [] then [] else Inserted(zone, InOrder(zone, resources[1..]), resources[0])
  }

  function IdsOf(resources: seq<Resource>): seq<string> {
    seq(|resources|, i requires 0 <= i < |resources| => resources[i].id)
  }

  function Select(resources: seq<Resource>, kind: string, zone: string, healthy: map<string, bool>)
    : Result<Selection, FacilityError>
  {
    if !IsIdentifier(kind) || !IsIdentifier(zone) then Err(NotAnIdentifier)
    else
      var ordered := InOrder(zone, Candidates(resources, kind, zone, healthy));
      if ordered == [] then Err(NoResource)
      else Ok(Selection(ordered[0], IdsOf(ordered), if ordered[0].zone == zone then ExactZone else DeclaredFallback,
                        ordered[0].dependency))
  }

  // ---------------------------------------------------------------------------
  // Order facts
  // ---------------------------------------------------------------------------

  lemma {:induction false} TextOrderTotal(a: string, b: string)
    ensures if a == b then !TextBefore(a, b) else TextBefore(a, b) != TextBefore(b, a)
  {
    if a != [] && b != [] && a[0] == b[0] {
      TextOrderTotal(a[1..], b[1..]);
      assert a == [a[0]] + a[1..] && b == [b[0]] + b[1..];
    }
  }

  lemma {:induction false} TextOrderTransitive(a: string, b: string, c: string)
    requires TextBefore(a, b) && TextBefore(b, c)
    ensures TextBefore(a, c)
  {
    if a != [] && a[0] == b[0] && b[0] == c[0] {
      TextOrderTransitive(a[1..], b[1..], c[1..]);
    }
  }

  lemma BeforeTransitive(zone: string, r: Resource, s: Resource, t: Resource)
    requires Before(zone, r, s) && Before(zone, s, t)
    ensures Before(zone, r, t)
  {
    if TextBefore(r.id, s.id) && TextBefore(s.id, t.id) {
      TextOrderTransitive(r.id, s.id, t.id);
    }
  }

  lemma BeforeTotal(zone: string, r: Resource, s: Resource)
    requires r.id != s.id
    ensures Before(zone, r, s) != Before(zone, s, r)
  {
    TextOrderTotal(r.id, s.id);
  }

  predicate Ascending(zone: string, resources: seq<Resource>) {
    forall i, j :: 0 <= i < j < |resources| ==> Before(zone, resources[i], resources[j])
  }

  lemma {:induction false} InsertedHas(zone: string, sorted: seq<Resource>, r: Resource)
    ensures multiset(Inserted(zone, sorted, r)) == multiset(sorted) + multiset{r}
    ensures forall s :: s in Inserted(zone, sorted, r) <==> s in sorted || s == r
  {
    hide Before;
    if sorted != [] {
      assert sorted == [sorted[0]] + sorted[1..];
      InsertedHas(zone, sorted[1..], r);
    }
  }

  lemma HeadAscends(zone: string, r: Resource, sorted: seq<Resource>)
    requires Ascending(zone, sorted) && forall s :: s in sorted ==> Before(zone, r, s)
    ensures Ascending(zone, [r] + sorted)
  {
    hide Before;
  }

  lemma {:induction false} InsertedAscends(zone: string, sorted: seq<Resource>, r: Resource)
    requires Ascending(zone, sorted) && forall s :: s in sorted ==> s.id != r.id
    ensures Ascending(zone, Inserted(zone, sorted, r))
  {
    hide Before, Ascending;
    if sorted == [] {
      assert Ascending(zone, []) by { EmptyAscends(zone); }
      HeadAscends(zone, r, []);
      assert [r] + [] == [r];
    } else {
      forall s | s in sorted
        ensures s == sorted[0] || Before(zone, sorted[0], s)
      {
        HeadComesFirst(zone, sorted, s);
      }
      TailAscends(zone, sorted);
      if Before(zone, r, sorted[0]) {
        forall s | s in sorted
          ensures Before(zone, r, s)
        {
          if s != sorted[0] {
            BeforeTransitive(zone, r, sorted[0], s);
          }
        }
        HeadAscends(zone, r, sorted);
      } else {
        BeforeTotal(zone, r, sorted[0]);
        InsertedAscends(zone, sorted[1..], r);
        InsertedHas(zone, sorted[1..], r);
        forall s | s in sorted[1..]
          ensures Before(zone, sorted[0], s)
        {
          InTail(zone, sorted, s);
        }
        HeadAscends(zone, sorted[0], Inserted(zone, sorted[1..], r));
      }
    }
  }

  lemma EmptyAscends(zone: string)
    ensures Ascending(zone, [])
  {
  }

  lemma InTail(zone: string, sorted: seq<Resource>, s: Resource)
    requires Ascending(zone, sorted) && sorted != [] && s in sorted[1..]
    ensures Before(zone, sorted[0], s)
  {
    hide Before;
    var k :| 0 <= k < |sorted[1..]| && sorted[1..][k] == s;
    assert sorted[k + 1] == s;
  }

  lemma {:induction false} InOrderSorts(zone: string, resources: seq<Resource>)
    requires UniqueIds(resources)
    ensures Ascending(zone, InOrder(zone, resources))
    ensures multiset(InOrder(zone, resources)) == multiset(resources)
    ensures forall s :: s in InOrder(zone, resources) <==> s in resources
  {
    hide Before, Inserted, Ascending;
    if resources == [] {
      EmptyAscends(zone);
    } else {
      assert resources == [resources[0]] + resources[1..];
      InOrderSorts(zone, resources[1..]);
      InsertedHas(zone, InOrder(zone, resources[1..]), resources[0]);
      InsertedAscends(zone, InOrder(zone, resources[1..]), resources[0]);
    }
  }

  lemma {:induction false} CandidatesAre(resources: seq<Resource>, kind: string, zone: string, healthy: map<string, bool>)
    ensures var found := Candidates(resources, kind, zone, healthy);
            && (forall r :: r in found <==> r in resources && Eligible(r, kind, zone, healthy))
            && (UniqueIds(resources) ==> UniqueIds(found))
  {
    hide Eligible;
    if resources != [] {
      CandidatesAre(resources[1..], kind, zone, healthy);
      assert resources == [resources[0]] + resources[1..];
      var rest := Candidates(resources[1..], kind, zone, healthy);
      if UniqueIds(resources) {
        forall i | 0 <= i < |rest|
          ensures rest[i].id != resources[0].id
        {
          assert rest[i] in rest;
          var k :| 0 <= k < |resources[1..]| && resources[1..][k] == rest[i];
          assert resources[k + 1] == rest[i];
        }
      }
    }
  }

  // ---------------------------------------------------------------------------
  // What a selection is
  // ---------------------------------------------------------------------------

  /** There is a selection exactly when some resource of the kind is healthy and
      covers the zone; it comes before every other such resource, and the candidates
      are all of them, in order. */
  lemma SelectionIsFirst(resources: seq<Resource>, kind: string, zone: string, healthy: map<string, bool>)
    requires UniqueIds(resources) && IsIdentifier(kind) && IsIdentifier(zone)
    ensures var selected := Select(resources, kind, zone, healthy);
            && (selected.Ok? <==> exists r :: r in resources && Eligible(r, kind, zone, healthy))
            && (selected.Ok? ==>
                  var first := selected.value.resource;
                  && first in resources && Eligible(first, kind, zone, healthy)
                  && (forall r :: r in resources && Eligible(r, kind, zone, healthy) && r != first ==> Before(zone, first, r))
                  && (forall id :: id in selected.value.candidates
                                   <==> exists r :: r in resources && Eligible(r, kind, zone, healthy) && r.id == id))
  {
    hide Before, Eligible, Candidates, InOrder, IsIdentifier;
    var found := Candidates(resources, kind, zone, healthy);
    var ordered := InOrder(zone, found);
    CandidatesAre(resources, kind, zone, healthy);
    InOrderSorts(zone, found);
    forall r | r in found && ordered != [] && r != ordered[0]
      ensures Before(zone, ordered[0], r)
    {
      assert r in ordered;
      var k :| 0 <= k < |ordered| && ordered[k] == r;
    }
    IdsAre(ordered);
    if exists r :: r in resources && Eligible(r, kind, zone, healthy) {
      var r :| r in resources && Eligible(r, kind, zone, healthy);
      assert r in ordered;
    }
    if ordered != [] {
      assert ordered[0] in ordered;
    }
  }

  lemma IdsAre(resources: seq<Resource>)
    ensures forall id :: id in IdsOf(resources) <==> exists r :: r in resources && r.id == id
  {
    forall id | exists r :: r in resources && r.id == id
      ensures id in IdsOf(resources)
    {
      var r :| r in resources && r.id == id;
      var k :| 0 <= k < |resources| && resources[k] == r;
      assert IdsOf(resources)[k] == id;
    }
    forall id | id in IdsOf(resources)
      ensures exists r :: r in resources && r.id == id
    {
      var k :| 0 <= k < |IdsOf(resources)| && IdsOf(resources)[k] == id;
      assert resources[k] in resources;
    }
  }

  /** A fallback serves a zone only when nothing healthy of the kind is in it. */
  lemma LocalFirst(resources: seq<Resource>, kind: string, zone: string, healthy: map<string, bool>)
    requires UniqueIds(resources) && Select(resources, kind, zone, healthy).Ok?
    ensures var selected := Select(resources, kind, zone, healthy).value;
            && (selected.reason.ExactZone? <==> selected.resource.zone == zone)
            && (selected.reason.ExactZone?
                <==> exists r :: r in resources && Eligible(r, kind, zone, healthy) && r.zone == zone)
  {
    hide Eligible, IsIdentifier, TextBefore;
    SelectionIsFirst(resources, kind, zone, healthy);
    if r :| r in resources && Eligible(r, kind, zone, healthy) && r.zone == zone {
      var first := Select(resources, kind, zone, healthy).value.resource;
      assert r == first || Before(zone, first, r);
    }
  }

  lemma HeadComesFirst(zone: string, a: seq<Resource>, r: Resource)
    requires Ascending(zone, a) && r in a
    ensures r == a[0] || Before(zone, a[0], r)
  {
    hide Before;
    var k :| 0 <= k < |a| && a[k] == r;
  }

  lemma SameHead(zone: string, a: seq<Resource>, b: seq<Resource>)
    requires a != [] && b != [] && Ascending(zone, a) && Ascending(zone, b) && UniqueIds(a) && a[0] in b && b[0] in a
    ensures a[0] == b[0]
  {
    hide Before, Ascending;
    HeadComesFirst(zone, a, b[0]);
    HeadComesFirst(zone, b, a[0]);
    if a[0] != b[0] {
      var k :| 0 <= k < |a| && a[k] == b[0];
      BeforeTotal(zone, a[0], b[0]);
    }
  }

  lemma TailAscends(zone: string, a: seq<Resource>)
    requires a != [] && Ascending(zone, a)
    ensures Ascending(zone, a[1..]) && multiset(a[1..]) == multiset(a) - multiset{a[0]}
  {
    hide Before;
    assert a == [a[0]] + a[1..];
  }

  lemma {:induction false} AscendingIsUnique(zone: string, a: seq<Resource>, b: seq<Resource>)
    requires multiset(a) == multiset(b) && Ascending(zone, a) && Ascending(zone, b) && UniqueIds(a)
    ensures a == b
  {
    hide Ascending;
    assert |a| == |multiset(a)| == |multiset(b)| == |b|;
    if a != [] {
      assert a[0] in multiset(b) && b[0] in multiset(a);
      SameHead(zone, a, b);
      TailAscends(zone, a);
      TailAscends(zone, b);
      AscendingIsUnique(zone, a[1..], b[1..]);
      assert a == [a[0]] + a[1..] && b == [b[0]] + b[1..];
    }
  }

  lemma {:induction false} CandidatesOfConcat(a: seq<Resource>, b: seq<Resource>, kind: string, zone: string,
                                              healthy: map<string, bool>)
    ensures Candidates(a + b, kind, zone, healthy) == Candidates(a, kind, zone, healthy) + Candidates(b, kind, zone, healthy)
  {
    hide Eligible;
    if a == [] {
      assert a + b == b;
    } else {
      assert (a + b)[1..] == a[1..] + b;
      CandidatesOfConcat(a[1..], b, kind, zone, healthy);
    }
  }

  lemma Without(b: seq<Resource>, i: nat)
    requires i < |b|
    ensures b == b[..i] + ([b[i]] + b[i + 1..])
    ensures multiset(b) == multiset(b[..i] + b[i + 1..]) + multiset{b[i]}
  {
    assert b == b[..i] + ([b[i]] + b[i + 1..]);
    assert multiset(b) == multiset(b[..i]) + (multiset{b[i]} + multiset(b[i + 1..]));
  }

  lemma CandidatesWithout(b: seq<Resource>, i: nat, kind: string, zone: string, healthy: map<string, bool>)
    requires i < |b|
    ensures multiset(Candidates(b, kind, zone, healthy))
            == multiset(Candidates([b[i]], kind, zone, healthy)) + multiset(Candidates(b[..i] + b[i + 1..], kind, zone, healthy))
  {
    hide Candidates;
    Without(b, i);
    CandidatesOfConcat(b[..i], b[i + 1..], kind, zone, healthy);
    CandidatesOfConcat(b[..i], [b[i]] + b[i + 1..], kind, zone, healthy);
    CandidatesOfConcat([b[i]], b[i + 1..], kind, zone, healthy);
  }

  lemma SameRest(a: seq<Resource>, b: seq<Resource>) returns (i: nat)
    requires a != [] && multiset(a) == multiset(b)
    ensures i < |b| && b[i] == a[0] && multiset(a[1..]) == multiset(b[..i] + b[i + 1..])
  {
    assert a[0] in multiset(b);
    i :| 0 <= i < |b| && b[i] == a[0];
    var m, x, y := multiset{a[0]}, multiset(a[1..]), multiset(b[..i] + b[i + 1..]);
    Without(b, i);
    Without(a, 0);
    assert a[..0] + a[1..] == a[1..];
    SameWithout(x, y, m);
  }

  lemma SameWithout(x: multiset<Resource>, y: multiset<Resource>, m: multiset<Resource>)
    requires x + m == y + m
    ensures x == y
  {
    assert x == (x + m) - m && y == (y + m) - m;
  }

  lemma {:induction false} SameCandidates(a: seq<Resource>, b: seq<Resource>, kind: string, zone: string,
                                          healthy: map<string, bool>)
    requires multiset(a) == multiset(b)
    ensures multiset(Candidates(a, kind, zone, healthy)) == multiset(Candidates(b, kind, zone, healthy))
  {
    hide Candidates;
    if a == [] {
      assert |multiset(b)| == |b|;
    } else {
      var i := SameRest(a, b);
      SameCandidates(a[1..], b[..i] + b[i + 1..], kind, zone, healthy);
      CandidatesWithout(b, i, kind, zone, healthy);
      CandidatesWithout(a, 0, kind, zone, healthy);
      assert a[..0] + a[1..] == a[1..];
    }
  }

  /** The order in which a catalog lists its resources never matters. */
  lemma SelectionIgnoresCatalogOrder(a: seq<Resource>, b: seq<Resource>, kind: string, zone: string, healthy: map<string, bool>)
    requires multiset(a) == multiset(b) && UniqueIds(a) && UniqueIds(b)
    ensures Select(a, kind, zone, healthy) == Select(b, kind, zone, healthy)
  {
    hide Before, Eligible, IsIdentifier;
    SameCandidates(a, b, kind, zone, healthy);
    CandidatesAre(a, kind, zone, healthy);
    CandidatesAre(b, kind, zone, healthy);
    var x, y := Candidates(a, kind, zone, healthy), Candidates(b, kind, zone, healthy);
    InOrderSorts(zone, x);
    InOrderSorts(zone, y);
    InOrderUnique(zone, x);
    AscendingIsUnique(zone, InOrder(zone, x), InOrder(zone, y));
  }

  lemma InOrderUnique(zone: string, resources: seq<Resource>)
    requires UniqueIds(resources)
    ensures UniqueIds(InOrder(zone, resources))
  {
    InOrderSorts(zone, resources);
    var sorted := InOrder(zone, resources);
    forall i, j | 0 <= i < j < |sorted|
      ensures sorted[i].id != sorted[j].id
    {
      TextOrderTotal(sorted[i].id, sorted[j].id);
      assert sorted[i] in resources && sorted[j] in resources;
    }
  }
}
