/** Which providers may serve a model. */
module Routing {
  import opened Wrappers
  import opened Bytes
  import opened StableSorting

  datatype Route = Route(pattern: Bytes, provider: Bytes, priority: int, enabled: bool)

  /** Case folding and regular expressions are parameters; `matches` is None for a pattern that does not compile. */
  datatype Matching = Matching(lower: Bytes -> Bytes, matches: (Bytes, Bytes) -> Option<bool>)
  {
    function Provider(name: Bytes): Bytes {
      lower(TrimSpace(name))
    }

    predicate Hit(r: Route, name: Bytes) {
      r.enabled && TrimSpace(r.pattern) != "" && TrimSpace(r.provider) != "" && matches(r.pattern, name) == Some(true)
    }
  }

  datatype Table = Table(m: Matching, routes: seq<Route>)

  /** Some enabled route matches. */
  ghost predicate Matched(t: Table, model: Bytes) {
    exists r :: r in t.routes && t.m.Hit(r, TrimSpace(model))
  }

  /** A matching route of the best priority names this provider. */
  ghost predicate Allowed(t: Table, model: Bytes, provider: Bytes) {
    exists r :: r in t.routes && t.m.Hit(r, TrimSpace(model)) && t.m.Provider(r.provider) == provider
      && forall q :: q in t.routes && t.m.Hit(q, TrimSpace(model)) ==> r.priority <= q.priority
  }

  ghost predicate Eligible(t: Table, model: Bytes, provider: Bytes) {
    !Matched(t, model) || Allowed(t, model, t.m.Provider(provider)) || t.m.Provider(provider) == "mock"
  }

  method ProvidersForModel(t: Table, model: Bytes) returns (allowed: set<Bytes>, matched: bool)
    ensures matched <==> Matched(t, model)
    ensures forall p :: p in allowed <==> Allowed(t, model, p)
  {
    var name := TrimSpace(model);
    var hits := Hits(t, name);
    if |hits| == 0 {
      return {}, false;
    }
    assert hits[0] in hits;
    allowed := BestProviders(t.m, hits);
    matched := true;
  }

  method Hits(t: Table, name: Bytes) returns (hits: seq<Route>)
    ensures forall r :: r in hits <==> r in t.routes && t.m.Hit(r, name)
    ensures hits == [] ==> forall r :: r in t.routes ==> !t.m.Hit(r, name)
  {
    hits := [];
    for i := 0 to |t.routes|
      invariant forall r :: r in hits <==> r in t.routes[..i] && t.m.Hit(r, name)
    {
      var r := t.routes[i];
      assert t.routes[..i + 1] == t.routes[..i] + [r];
      if t.m.Hit(r, name) {
        hits := hits + [r];
      }
    }
    assert t.routes[..|t.routes|] == t.routes;
  }

  function RoutePriority(r: Route): int {
    r.priority
  }

  /** The providers of the hits of the best priority. */
  method BestProviders(m: Matching, hits: seq<Route>) returns (allowed: set<Bytes>)
    requires hits != []
    ensures forall p :: p in allowed <==>
      exists r :: r in hits && m.Provider(r.provider) == p && forall q :: q in hits ==> r.priority <= q.priority
  {
    allowed := {};
    var sorted := StableSort(hits, RoutePriority);
    StableSortIsStable(hits, RoutePriority);
    SameMembers(sorted, hits, RoutePriority);
    assert hits[0] in sorted;
    hide StableSort, WithKey, TrimSpace;
    var best := sorted[0].priority;
    var i := 0;
    while i < |sorted| && sorted[i].priority == best
      invariant i <= |sorted|
      invariant forall k :: 0 <= k < i ==> sorted[k].priority == best
      invariant forall p :: p in allowed <==> exists k :: 0 <= k < i && m.Provider(sorted[k].provider) == p
    {
      allowed := allowed + {m.Provider(sorted[i].provider)};
      i := i + 1;
    }
    forall q | q in hits ensures best <= q.priority {
      assert q in sorted;
    }
    forall p ensures p in allowed <==>
      exists r :: r in hits && m.Provider(r.provider) == p && forall q :: q in hits ==> r.priority <= q.priority
    {
      BestAreFirst(m, sorted, hits, i, p);
    }
  }

  lemma BestAreFirst(m: Matching, sorted: seq<Route>, hits: seq<Route>, i: nat, p: Bytes)
    requires sorted != [] && Ascending(sorted, RoutePriority)
    requires forall r :: r in sorted <==> r in hits
    requires i <= |sorted| && (forall k :: 0 <= k < i ==> sorted[k].priority == sorted[0].priority)
    requires i < |sorted| ==> sorted[i].priority != sorted[0].priority
    ensures (exists k :: 0 <= k < i && m.Provider(sorted[k].provider) == p) <==>
      exists r :: r in hits && m.Provider(r.provider) == p && forall q :: q in hits ==> r.priority <= q.priority
  {
    hide TrimSpace;
    forall q | q in hits ensures sorted[0].priority <= q.priority {
      var k :| 0 <= k < |sorted| && sorted[k] == q;
      assert RoutePriority(sorted[0]) <= RoutePriority(sorted[k]) || k == 0;
    }
    if k :| 0 <= k < i && m.Provider(sorted[k].provider) == p {
      assert sorted[k] in hits;
    }
    if r :| r in hits && m.Provider(r.provider) == p && forall q :: q in hits ==> r.priority <= q.priority {
      var k :| 0 <= k < |sorted| && sorted[k] == r;
      assert sorted[0] in hits;
      if i < |sorted| && i <= k {
        assert RoutePriority(sorted[i]) <= RoutePriority(sorted[k]) || i == k;
        assert RoutePriority(sorted[0]) <= RoutePriority(sorted[i]);
      }
    }
  }

  method AccountEligibleForModel(t: Table, provider: Bytes, model: Bytes) returns (ok: bool)
    ensures ok <==> Eligible(t, model, provider)
  {
    var allowed, matched := ProvidersForModel(t, model);
    if !matched {
      return true;
    }
    var p := t.m.Provider(provider);
    ok := p in allowed || p == "mock";
  }
}
