/** Who may change what: provenance only rises, and local policy is changed only by candidates that own it. */
module AssemblerProvenance {
  import opened Assembler
  import opened AssemblerProofs
  import opened AssemblerSafety

  /** What one candidate may do to a saved route. */
  ghost predicate RouteStep(c: Candidate, a: Route, b: Route) {
    && b.kind == a.kind && Rank(b.source) >= Rank(a.source)
    && ((b.config == a.config && b.source == a.source) || b.source == c.source)
    && ((b.policy == a.policy && b.policySource == a.policySource) || (OwnsPolicy(c) && b.policySource == c.source))
  }

  /** A route is not touched by a source of lower rank, and its policy not by a source without policy. */
  lemma MergeRouteStep(c: Candidate, a: Route, r: OfferedRoute)
    requires a.kind == r.kind
    ensures RouteStep(c, a, MergeRoute(a, Incoming(c, r), OwnsPolicy(c), Forces(c)))
    ensures Rank(c.source) < Rank(a.source) ==>
              var b := MergeRoute(a, Incoming(c, r), OwnsPolicy(c), Forces(c));
              b.config == a.config && b.source == a.source
    ensures !Forces(c) && Rank(c.source) < Rank(a.policySource) ==>
              var b := MergeRoute(a, Incoming(c, r), OwnsPolicy(c), Forces(c));
              b.policy == a.policy && b.policySource == a.policySource
  {
  }

  lemma RouteStepTwice(c: Candidate, a: Route, b: Route, d: Route)
    requires RouteStep(c, a, b) && RouteStep(c, b, d)
    ensures RouteStep(c, a, d)
  {
  }

  lemma {:induction false} AddRoutesStep(x: Rules, routes: map<string, Route>, c: Candidate, rs: seq<OfferedRoute>, n: nat, id: string)
    requires n <= |rs| && AddRoutes(x, routes, c, rs, n).Some? && id in routes
    ensures id in AddRoutes(x, routes, c, rs, n).value && RouteStep(c, routes[id], AddRoutes(x, routes, c, rs, n).value[id])
  {
    if n > 0 {
      hide RouteStep;
      hide MergeRoute;
      AddRoutesStep(x, routes, c, rs, n - 1, id);
      var before, r := AddRoutes(x, routes, c, rs, n - 1).value, rs[n - 1];
      if r.id == id {
        MergeRouteStep(c, before[id], r);
        RouteStepTwice(c, routes[id], before[id], AddRoutes(x, routes, c, rs, n).value[id]);
      }
    } else {
      assert RouteStep(c, routes[id], routes[id]);
    }
  }

  /** What one candidate may do to a saved endpoint besides its routes. */
  ghost predicate EndpointStep(c: Candidate, e: Endpoint, e': Endpoint) {
    && e'.enabled == e.enabled && e'.identity == e.identity
    && ((e'.display == e.display && e'.displaySource == e.displaySource)
        || (OwnsPolicy(c) && e.displaySource != User && e'.displaySource == c.source && Rank(c.source) >= Rank(e.displaySource)))
    && ((e'.connectMode == e.connectMode && e'.selection == e.selection) || OwnsPolicy(c))
    && forall id :: id in e.routes ==> id in e'.routes && RouteStep(c, e.routes[id], e'.routes[id])
  }

  lemma PreparedStep(e: Endpoint, c: Candidate, routes: map<string, Route>)
    requires forall id :: id in e.routes ==> id in routes && RouteStep(c, e.routes[id], routes[id])
    ensures EndpointStep(c, e, Prepared(e, c).(routes := routes))
    ensures Prepared(e, c).routes == e.routes
  {
    hide RouteStep;
  }

  /** The candidate has no room, and this is where its endpoint goes. */
  ghost predicate Replaces(x: Rules, reg: Registry, c: Candidate, id: string)
    requires Sound(x)
  {
    !RoomFor(x, reg, c) && id == DerivedId(x, c.identity.fingerprint, 13)
  }

  /** A candidate touches its own endpoint only, and that within its rights, or replaces the one at its last ID. */
  lemma MergeStep(x: Rules, reg: Registry, c: Candidate, id: string)
    requires Sound(x) && MergeCandidate(x, reg, c).Some? && id in reg.endpoints
    ensures var reg' := MergeCandidate(x, reg, c).value.registry;
            && id in reg'.endpoints
            && if Replaces(x, reg, c, id) then reg.endpoints[id].identity != c.identity == reg'.endpoints[id].identity
               else reg'.endpoints[id] == reg.endpoints[id] || EndpointStep(c, reg.endpoints[id], reg'.endpoints[id])
  {
    hide RouteStep;
    hide EndpointStep;
    hide AddRoutes;
    hide SortRoutes;
    hide KeepsRoutes;
    var e, e' := MergeParts(x, reg, c);
    var base, routes := MergedEndpoint(x, reg, c);
    hide MergeCandidate;
    var p := MergeCandidate(x, reg, c).value;
    if Find(reg, c.identity).Some? {
      if id == p.id {
        var saved, rs := reg.endpoints[id], SortRoutes(x, c.routes);
        assert base.routes == saved.routes;
        forall rid | rid in saved.routes ensures rid in routes && RouteStep(c, saved.routes[rid], routes[rid]) {
          AddRoutesStep(x, base.routes, c, rs, |rs|, rid);
        }
        PreparedStep(saved, c, routes);
      }
    } else {
      DeriveIsFresh(x, c.identity.fingerprint, reg.endpoints.Keys, 0);
      assert !Pinned(reg, id, c.identity);
      if !RoomFor(x, reg, c) { LastResort(x, c.identity.fingerprint, reg.endpoints.Keys, 0); }
    }
  }

  // ------------------------------------------------------------------ over all candidates

  /** Someone among the first n candidates may have done it. */
  ghost predicate Someone(cs: seq<Candidate>, n: nat, source: Source, owning: bool) {
    exists i :: 0 <= i < n <= |cs| && cs[i].source == source && (owning ==> OwnsPolicy(cs[i]))
  }

  ghost predicate RouteRun(cs: seq<Candidate>, n: nat, a: Route, b: Route) {
    && b.kind == a.kind && Rank(b.source) >= Rank(a.source)
    && ((b.config == a.config && b.source == a.source) || Someone(cs, n, b.source, false))
    && ((b.policy == a.policy && b.policySource == a.policySource) || Someone(cs, n, b.policySource, true))
  }

  ghost predicate EndpointRun(cs: seq<Candidate>, n: nat, e: Endpoint, e': Endpoint) {
    && e'.enabled == e.enabled && e'.identity == e.identity
    && (e.displaySource == User ==> e'.display == e.display && e'.displaySource == User)
    && Rank(e'.displaySource) >= Rank(e.displaySource)
    && ((e'.connectMode == e.connectMode && e'.selection == e.selection) || exists s :: Someone(cs, n, s, true))
    && forall id :: id in e.routes ==> id in e'.routes && RouteRun(cs, n, e.routes[id], e'.routes[id])
  }

  lemma SomeoneLater(cs: seq<Candidate>, n: nat, source: Source, owning: bool)
    requires n < |cs|
    ensures Someone(cs, n, source, owning) ==> Someone(cs, n + 1, source, owning)
    ensures Someone(cs, n + 1, cs[n].source, false)
    ensures OwnsPolicy(cs[n]) ==> Someone(cs, n + 1, cs[n].source, true)
  {
    if Someone(cs, n, source, owning) {
      var i :| 0 <= i < n <= |cs| && cs[i].source == source && (owning ==> OwnsPolicy(cs[i]));
      assert i < n + 1;
    }
  }

  lemma RouteRunNext(cs: seq<Candidate>, n: nat, a: Route, b: Route, d: Route)
    requires n < |cs| && RouteRun(cs, n, a, b) && (d == b || RouteStep(cs[n], b, d))
    ensures RouteRun(cs, n + 1, a, d)
  {
    hide Someone;
    SomeoneLater(cs, n, b.source, false);
    SomeoneLater(cs, n, b.policySource, true);
  }

  lemma EndpointRunNext(cs: seq<Candidate>, n: nat, a: Endpoint, b: Endpoint, d: Endpoint)
    requires n < |cs| && EndpointRun(cs, n, a, b) && (d == b || EndpointStep(cs[n], b, d))
    ensures EndpointRun(cs, n + 1, a, d)
  {
    hide Someone;
    hide RouteRun;
    hide RouteStep;
    forall id | id in a.routes ensures id in d.routes && RouteRun(cs, n + 1, a.routes[id], d.routes[id]) {
      RouteRunNext(cs, n, a.routes[id], b.routes[id], d.routes[id]);
    }
    if d.connectMode != a.connectMode || d.selection != a.selection {
      if d.connectMode == b.connectMode && d.selection == b.selection {
        var s :| Someone(cs, n, s, true);
        SomeoneLater(cs, n, s, true);
        assert Someone(cs, n + 1, s, true);
      } else {
        SomeoneLater(cs, n, cs[n].source, true);
        assert Someone(cs, n + 1, cs[n].source, true);
      }
    }
  }

  lemma SelfRun(cs: seq<Candidate>, e: Endpoint)
    ensures EndpointRun(cs, 0, e, e)
  {
  }

  /** Some candidate in its turn had no room, and this is its last ID. */
  ghost predicate Replaced(x: Rules, reg: Registry, cs: seq<Candidate>, n: nat, id: string)
    requires Sound(x) && n <= |cs|
  {
    exists k :: 0 <= k < n && MergeTo(x, reg, cs, k).Some? && Replaces(x, MergeTo(x, reg, cs, k).value.registry, cs[k], id)
  }

  lemma ReplacedLater(x: Rules, reg: Registry, cs: seq<Candidate>, n: nat, id: string)
    requires Sound(x) && 0 < n <= |cs| && MergeTo(x, reg, cs, n - 1).Some?
    ensures Replaced(x, reg, cs, n - 1, id) ==> Replaced(x, reg, cs, n, id)
    ensures Replaces(x, MergeTo(x, reg, cs, n - 1).value.registry, cs[n - 1], id) ==> Replaced(x, reg, cs, n, id)
  {
    hide MergeTo;
    hide Replaces;
    if Replaced(x, reg, cs, n - 1, id) {
      var k :| 0 <= k < n - 1 && MergeTo(x, reg, cs, k).Some? && Replaces(x, MergeTo(x, reg, cs, k).value.registry, cs[k], id);
      assert k < n;
    }
    if Replaces(x, MergeTo(x, reg, cs, n - 1).value.registry, cs[n - 1], id) {
      var k := n - 1;
      assert Replaces(x, MergeTo(x, reg, cs, k).value.registry, cs[k], id);
    }
  }

  lemma {:induction false} MergeToProvenance(x: Rules, reg: Registry, cs: seq<Candidate>, n: nat, id: string)
    requires Sound(x) && n <= |cs| && MergeTo(x, reg, cs, n).Some? && id in reg.endpoints
    ensures var reg' := MergeTo(x, reg, cs, n).value.registry;
            id in reg'.endpoints && (EndpointRun(cs, n, reg.endpoints[id], reg'.endpoints[id]) || Replaced(x, reg, cs, n, id))
  {
    hide Sound;
    hide MergeCandidate;
    hide EndpointRun;
    hide EndpointStep;
    hide Replaces;
    hide Replaced;
    if n == 0 {
      SelfRun(cs, reg.endpoints[id]);
    } else {
      Unfold(x, reg, cs, n);
      MergeToProvenance(x, reg, cs, n - 1, id);
      var m := MergeTo(x, reg, cs, n - 1).value;
      MergeStep(x, m.registry, cs[n - 1], id);
      ReplacedLater(x, reg, cs, n, id);
      hide MergeTo;
      if !Replaced(x, reg, cs, n, id) {
        EndpointRunNext(cs, n - 1, reg.endpoints[id], m.registry.endpoints[id],
                        MergeCandidate(x, m.registry, cs[n - 1]).value.registry.endpoints[id]);
      }
    }
  }

  lemma RoomyReplacesNone(x: Rules, reg: Registry, cs: seq<Candidate>, n: nat, id: string)
    requires Sound(x) && n <= |cs| && Roomy(x, reg, cs, n)
    ensures !Replaced(x, reg, cs, n, id)
  {
    hide MergeTo;
    hide RoomFor;
  }

  /**
   A saved endpoint after a successful assembly: a display name the user chose stays; a route's
   configuration comes from no lower-ranked source than before; policies, connect mode and
   selection are as saved unless some candidate owned client policy. The one exception is the
   endpoint at the last ID of a candidate that had no room, and with IDs that suffice there is none.
   */
  lemma AssemblyProvenance(x: Rules, reg: Registry, cs: seq<Candidate>, bs: seq<Binding>, out: Option<Result>, id: string)
    requires Sound(x) && Assembles(x, reg, cs, bs, out) && out.Some? && id in reg.endpoints
    ensures BindAll(x, reg, bs, Identities(SortCandidates(x, cs))).Some? && id in out.value.registry.endpoints
    ensures var bound := BindAll(x, reg, bs, Identities(SortCandidates(x, cs))).value;
            && id in bound.endpoints
            && bound.endpoints[id] == reg.endpoints[id].(identity := bound.endpoints[id].identity)
            && (IdsSuffice(x, reg, cs, bs) || !Replaced(x, bound, SortCandidates(x, cs), |cs|, id) ==>
                  EndpointRun(SortCandidates(x, cs), |cs|, bound.endpoints[id], out.value.registry.endpoints[id]))
  {
    SoundDigests(x);
    hide Sound;
    hide Digests;
    hide SortCandidates;
    hide CensusAfter;
    hide RegistryOk;
    hide UniqueIdentities;
    hide MergeTo;
    hide AssembleSorted;
    hide EndpointRun;
    hide Replaced;
    hide Roomy;
    hide BindAll;
    hide Bound;
    var sorted := SortCandidates(x, cs);
    var bound := Assembled(x, reg, sorted, bs);
    var ordered := BoundParts(x, reg, bs, Identities(sorted));
    BoundEndpoint(reg, bound, ordered, id);
    MergeToProvenance(x, bound, sorted, |sorted|, id);
    NoneEmpty(x, sorted);
    BoundDescribed(reg, bound, bs, ordered);
    CensusFollows(x, CensusOf(reg, bs), bound, sorted, |sorted|);
    if Roomy(x, bound, sorted, |sorted|) { RoomyReplacesNone(x, bound, sorted, |sorted|, id); }
  }

  lemma BoundEndpoint(reg: Registry, bound: Registry, bs: seq<Binding>, id: string)
    requires Bound(reg, bound, bs) && id in reg.endpoints
    ensures id in bound.endpoints && bound.endpoints[id] == reg.endpoints[id].(identity := bound.endpoints[id].identity)
  {
    assert BoundOne(reg, bound, bs, id);
  }
}
