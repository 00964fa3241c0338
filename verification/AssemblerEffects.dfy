/** What a successful assembly takes over from its candidates. */
module AssemblerEffects {
  import opened Assembler
  import opened AssemblerProofs
  import opened AssemblerSafety

  // ------------------------------------------------------------------ one route

  /** The saved configuration yields exactly to a source of at least its rank. */
  ghost predicate ConfigTaken(saved: Option<Route>, c: Candidate, r: OfferedRoute, b: Route) {
    if saved.Some? && Rank(saved.value.source) > Rank(c.source)
    then b.config == saved.value.config && b.source == saved.value.source
    else b.config == r.config && b.source == c.source
  }

  /** The saved policy yields exactly to an owner of client policy that forces it or ranks at least as high. */
  ghost predicate PolicyTaken(saved: Option<Route>, c: Candidate, r: OfferedRoute, b: Route) {
    if saved.None? then
      if OwnsPolicy(c) then b.policy == r.policy && b.policySource == c.source
      else b.policySource == Local && b.policy.enabled == r.policy.enabled && b.policy.priority == r.policy.priority
    else if OwnsPolicy(c) && (Forces(c) || Rank(c.source) >= Rank(saved.value.policySource))
    then b.policy == r.policy && b.policySource == c.source
    else b.policy == saved.value.policy && b.policySource == saved.value.policySource
  }

  function Saved(routes: map<string, Route>, id: string): Option<Route> {
    if id in routes then Some(routes[id]) else None
  }

  ghost predicate Taken(saved: Option<Route>, c: Candidate, r: OfferedRoute, b: Route) {
    b.kind == r.kind && ConfigTaken(saved, c, r, b) && PolicyTaken(saved, c, r, b)
  }

  lemma AddRouteTakes(x: Rules, routes: map<string, Route>, c: Candidate, r: OfferedRoute)
    requires AddRoute(x, routes, c, r).Some?
    ensures var out := AddRoute(x, routes, c, r).value;
            && out.Keys == routes.Keys + {r.id} && Taken(Saved(routes, r.id), c, r, out[r.id])
            && forall id :: id in routes && id != r.id ==> out[id] == routes[id]
  {
  }

  /** The later of two offers of one candidate under one ID decides. */
  lemma TakenTwice(saved: Option<Route>, c: Candidate, r: OfferedRoute, a: Route, r': OfferedRoute, b: Route)
    requires Taken(saved, c, r, a) && Taken(Some(a), c, r', b)
    requires !OwnsPolicy(c) ==> r.policy == NO_POLICY && r'.policy == NO_POLICY
    ensures Taken(saved, c, r', b)
  {
  }

  /** After a candidate's turn every route it offered is there, as its last offer under that ID and the saved one decide. */
  lemma {:induction false} AddRoutesTake(x: Rules, routes: map<string, Route>, c: Candidate, rs: seq<OfferedRoute>, n: nat, id: string)
    requires n <= |rs| && AddRoutes(x, routes, c, rs, n).Some?
    requires !OwnsPolicy(c) ==> forall i :: 0 <= i < |rs| ==> rs[i].policy == NO_POLICY
    ensures var out, last := AddRoutes(x, routes, c, rs, n).value, LastOf(rs, id, n);
            if last.None? then Saved(out, id) == Saved(routes, id)
            else id in out && Taken(Saved(routes, id), c, rs[last.value], out[id])
  {
    hide Taken;
    if n > 0 {
      AddRoutesTake(x, routes, c, rs, n - 1, id);
      var before := AddRoutes(x, routes, c, rs, n - 1).value;
      AddRouteTakes(x, before, c, rs[n - 1]);
      hide AddRoute;
      if rs[n - 1].id == id && LastOf(rs, id, n - 1).Some? {
        TakenTwice(Saved(routes, id), c, rs[LastOf(rs, id, n - 1).value], before[id], rs[n - 1], AddRoutes(x, routes, c, rs, n).value[id]);
      }
    }
  }

  // ------------------------------------------------------------------ one candidate's turn

  /** The candidate's last offer under an ID. */
  function OfferOf(x: Rules, c: Candidate, id: string): Option<OfferedRoute> {
    var rs := SortRoutes(x, c.routes);
    var last := LastOf(rs, id, |rs|);
    if last.Some? then Some(rs[last.value]) else None
  }

  /** What the turn does to its endpoint besides its routes. */
  ghost predicate Dressed(saved: Option<Endpoint>, c: Candidate, e: Endpoint) {
    && e.identity == c.identity
    && e.enabled == (saved.None? || saved.value.enabled)
    && (if saved.None? then e.display == (if c.display == "" then c.identity.deviceId else c.display) && e.displaySource == c.source
        else if OwnsPolicy(c) && c.display != "" && saved.value.displaySource != User && Rank(c.source) >= Rank(saved.value.displaySource)
        then e.display == c.display && e.displaySource == c.source
        else e.display == saved.value.display && e.displaySource == saved.value.displaySource)
    && e.connectMode == (if OwnsPolicy(c) && c.connectMode.Some? then c.connectMode.value
                         else if saved.None? then OnDemand else saved.value.connectMode)
    && e.selection == (if OwnsPolicy(c) && c.selection.Some? then c.selection.value
                       else if saved.None? then 0 else saved.value.selection)
  }

  /** The endpoint a candidate of this identity finds. */
  ghost function Home(reg: Registry, c: Candidate): Option<Endpoint> {
    var found := Find(reg, c.identity);
    if found.Some? then Some(reg.endpoints[found.value]) else None
  }

  function RoutesOf(e: Option<Endpoint>): map<string, Route> {
    if e.Some? then e.value.routes else map[]
  }

  /** A candidate's turn dresses its endpoint, takes its offers over and touches nothing else. */
  lemma TurnTakes(x: Rules, reg: Registry, c: Candidate)
    requires Sound(x) && CandidateOk(x, c) && MergeCandidate(x, reg, c).Some?
    ensures var p := MergeCandidate(x, reg, c).value;
            && p.id in p.registry.endpoints && Dressed(Home(reg, c), c, p.registry.endpoints[p.id])
            && p.registry.default == (if reg.default == "" then p.id else reg.default)
            && p.registry.endpoints == reg.endpoints[p.id := p.registry.endpoints[p.id]]
            && forall id :: TurnRoute(x, Home(reg, c), c, p.registry.endpoints[p.id], id)
  {
    hide AddRoutes;
    hide SortRoutes;
    var e, e' := MergeParts(x, reg, c);
    var base, routes := MergedEndpoint(x, reg, c);
    var p := MergeCandidate(x, reg, c).value;
    hide MergeCandidate;
    PlainRoutes(x, c);
    hide CandidateOk;
    var rs := SortRoutes(x, c.routes);
    forall id ensures TurnRoute(x, Home(reg, c), c, p.registry.endpoints[p.id], id) {
      AddRoutesTake(x, base.routes, c, rs, |rs|, id);
    }
  }

  /** A route after the turn is the saved one, or what the candidate's last offer and the saved one make of it. */
  ghost predicate OfferTaken(x: Rules, routes: map<string, Route>, c: Candidate, out: map<string, Route>, id: string) {
    var offer := OfferOf(x, c, id);
    if offer.None? then Saved(out, id) == Saved(routes, id)
    else id in out && Taken(Saved(routes, id), c, offer.value, out[id])
  }

  lemma OffersTaken(x: Rules, routes: map<string, Route>, c: Candidate, out: map<string, Route>)
    requires CandidateOk(x, c) && AddRoutes(x, routes, c, SortRoutes(x, c.routes), |SortRoutes(x, c.routes)|) == Some(out)
    ensures forall id :: OfferTaken(x, routes, c, out, id)
  {
    hide AddRoutes;
    hide SortRoutes;
    PlainRoutes(x, c);
    hide CandidateOk;
    var rs := SortRoutes(x, c.routes);
    forall id ensures OfferTaken(x, routes, c, out, id) { AddRoutesTake(x, routes, c, rs, |rs|, id); }
  }

  ghost predicate TurnRoute(x: Rules, home: Option<Endpoint>, c: Candidate, e: Endpoint, id: string) {
    OfferTaken(x, RoutesOf(home), c, e.routes, id)
  }

  // ------------------------------------------------------------------ all candidates

  /** The last of the first n candidates with this identity that offers the route. */
  function LastOffer(x: Rules, cs: seq<Candidate>, d: Identity, id: string, n: nat): (r: Option<nat>)
    requires n <= |cs|
    ensures r.Some? ==> r.value < n && cs[r.value].identity == d && OfferOf(x, cs[r.value], id).Some?
  {
    if n == 0 then None
    else if cs[n - 1].identity == d && OfferOf(x, cs[n - 1], id).Some? then Some(n - 1)
    else LastOffer(x, cs, d, id, n - 1)
  }

  /** The configuration is that of the last offer, unless the saved one is of a higher rank. */
  ghost predicate Won(x: Rules, saved: Option<Route>, cs: seq<Candidate>, last: Option<nat>, id: string, routes: map<string, Route>)
    requires last.Some? ==> last.value < |cs| && OfferOf(x, cs[last.value], id).Some?
  {
    if last.None? then Saved(routes, id) == saved
    else id in routes && ConfigTaken(saved, cs[last.value], OfferOf(x, cs[last.value], id).value, routes[id])
  }

  ghost function Before(bound: Registry, eid: string, d: Identity, id: string): Option<Route> {
    if Pinned(bound, eid, d) then Saved(bound.endpoints[eid].routes, id) else None
  }

  /** One more candidate of the same identity: it ranks at least as high as those before it. */
  lemma WonNext(x: Rules, saved: Option<Route>, cs: seq<Candidate>, n: nat, last: Option<nat>, id: string,
                routes: map<string, Route>, e: Endpoint, home: Endpoint)
    requires 0 < n <= |cs| && (last.Some? ==> last.value < n - 1 && OfferOf(x, cs[last.value], id).Some?)
    requires last.Some? ==> Rank(cs[last.value].source) <= Rank(cs[n - 1].source)
    requires home.routes == routes && Won(x, saved, cs, last, id, routes) && TurnRoute(x, Some(home), cs[n - 1], e, id)
    ensures Won(x, saved, cs, if OfferOf(x, cs[n - 1], id).Some? then Some(n - 1) else last, id, e.routes)
  {
    hide OfferOf;
    hide PolicyTaken;
  }

  /** In an ordered list candidates of one identity come by rank. */
  lemma RanksRise(x: Rules, cs: seq<Candidate>, i: nat, j: nat)
    requires Ordered(x, cs) && i < j < |cs| && cs[i].identity == cs[j].identity
    ensures Rank(cs[i].source) <= Rank(cs[j].source)
  {
    assert !Later(x, cs[i], cs[j]);
  }

  /** An endpoint of one identity is not touched by a candidate of another that has room. */
  lemma TurnElsewhere(x: Rules, reg: Registry, c: Candidate, eid: string, d: Identity)
    requires Sound(x) && MergeCandidate(x, reg, c).Some? && RoomFor(x, reg, c) && c.identity != d
    requires Pinned(MergeCandidate(x, reg, c).value.registry, eid, d)
    ensures Pinned(reg, eid, d) && MergeCandidate(x, reg, c).value.registry.endpoints[eid] == reg.endpoints[eid]
  {
    hide MergeCandidate;
    hide KeepsRoutes;
    var e, e' := MergeParts(x, reg, c);
  }

  /** A candidate finds its identity where it is pinned, and nowhere else. */
  lemma TurnAtHome(x: Rules, reg: Registry, c: Candidate, eid: string)
    requires Sound(x) && UniqueIdentities(reg) && x.identityOk(c.identity) && MergeCandidate(x, reg, c).Some?
    requires Pinned(MergeCandidate(x, reg, c).value.registry, eid, c.identity)
    ensures MergeCandidate(x, reg, c).value.id == eid
    ensures if Pinned(reg, eid, c.identity) then Home(reg, c) == Some(reg.endpoints[eid]) else Home(reg, c) == None
  {
    MergePins(x, reg, c);
    var p := MergeCandidate(x, reg, c).value;
    OnePin(p.registry, c.identity, eid, p.id);
    if Pinned(reg, eid, c.identity) {
      Revisits(x, reg, c, eid);
    } else {
      assert Find(reg, c.identity).None? by {
        hide UniqueIdentities;
        var e, e' := MergeParts(x, reg, c);
      }
    }
  }

  /** One candidate more. */
  lemma WinnerNext(x: Rules, bound: Registry, m: Merged, cs: seq<Candidate>, n: nat, eid: string, d: Identity, id: string)
    requires Sound(x) && Ordered(x, cs) && 0 < n <= |cs| && UniqueIdentities(m.registry) && CandidateOk(x, cs[n - 1])
    requires MergeCandidate(x, m.registry, cs[n - 1]).Some? && RoomFor(x, m.registry, cs[n - 1])
    requires Pinned(MergeCandidate(x, m.registry, cs[n - 1]).value.registry, eid, d)
    requires Pinned(bound, eid, d) ==> Pinned(m.registry, eid, d)
    requires Pinned(m.registry, eid, d) ==>
               Won(x, Before(bound, eid, d, id), cs, LastOffer(x, cs, d, id, n - 1), id, m.registry.endpoints[eid].routes)
    requires !Pinned(m.registry, eid, d) ==> LastOffer(x, cs, d, id, n - 1).None?
    ensures Won(x, Before(bound, eid, d, id), cs, LastOffer(x, cs, d, id, n), id,
                MergeCandidate(x, m.registry, cs[n - 1]).value.registry.endpoints[eid].routes)
  {
    hide MergeCandidate;
    hide UniqueIdentities;
    hide OfferOf;
    var c, p := cs[n - 1], MergeCandidate(x, m.registry, cs[n - 1]).value;
    if c.identity == d {
      Verifies(x, c);
      TurnTakes(x, m.registry, c);
      TurnAtHome(x, m.registry, c, eid);
      assert TurnRoute(x, Home(m.registry, c), c, p.registry.endpoints[eid], id);
      hide TurnRoute;
      hide Home;
      var last := LastOffer(x, cs, d, id, n - 1);
      if last.Some? { RanksRise(x, cs, last.value, n - 1); }
      hide Ordered;
      hide Sound;
      hide Won;
      if Pinned(m.registry, eid, d) {
        var home := m.registry.endpoints[eid];
        WonNext(x, Before(bound, eid, d, id), cs, n, last, id, home.routes, p.registry.endpoints[eid], home);
      } else {
        WonFirst(x, cs, n, id, p.registry.endpoints[eid]);
      }
    } else {
      TurnElsewhere(x, m.registry, c, eid, d);
    }
  }

  lemma WonFirst(x: Rules, cs: seq<Candidate>, n: nat, id: string, e: Endpoint)
    requires 0 < n <= |cs| && TurnRoute(x, None, cs[n - 1], e, id)
    ensures Won(x, None, cs, if OfferOf(x, cs[n - 1], id).Some? then Some(n - 1) else None, id, e.routes)
  {
    hide OfferOf;
    hide PolicyTaken;
  }

  /** A candidate without an endpoint of its identity has not had its turn. */
  lemma {:induction false} NoTurnNoPin(x: Rules, bound: Registry, cs: seq<Candidate>, n: nat, eid: string, d: Identity, id: string)
    requires Sound(x) && n <= |cs| && MergeTo(x, bound, cs, n).Some? && Roomy(x, bound, cs, n) && UniqueIdentities(bound)
    requires (forall i :: 0 <= i < |cs| ==> x.identityOk(cs[i].identity)) && LastOffer(x, cs, d, id, n).Some?
    ensures exists k :: Pinned(MergeTo(x, bound, cs, n).value.registry, k, d)
  {
    hide MergeTo;
    hide Roomy;
    hide UniqueIdentities;
    var p := LastOffer(x, cs, d, id, n).value;
    IdsStay(x, bound, cs, n, p);
    assert Pinned(MergeTo(x, bound, cs, n).value.registry, MergeTo(x, bound, cs, n).value.ids[p], d);
  }

  /**
   Every route of every endpoint after all candidates are merged: its configuration is that of
   the last candidate in order, hence of the highest rank, that offers it for this identity,
   unless the one saved before is of a higher rank; without an offer it is as saved.
   */
  lemma {:induction false} RouteWinner(x: Rules, bound: Registry, cs: seq<Candidate>, n: nat, eid: string, d: Identity, id: string)
    requires Sound(x) && Ordered(x, cs) && n <= |cs| && UniqueIdentities(bound) && Roomy(x, bound, cs, n)
    requires forall i :: 0 <= i < |cs| ==> CandidateOk(x, cs[i]) && x.identityOk(cs[i].identity)
    requires MergeTo(x, bound, cs, n).Some? && Pinned(MergeTo(x, bound, cs, n).value.registry, eid, d) && !d.Empty()
    ensures Won(x, Before(bound, eid, d, id), cs, LastOffer(x, cs, d, id, n), id,
                MergeTo(x, bound, cs, n).value.registry.endpoints[eid].routes)
  {
    hide MergeCandidate;
    hide MergeTo;
    hide Roomy;
    hide UniqueIdentities;
    hide RoomFor;
    hide Sound;
    hide Ordered;
    hide CandidateOk;
    hide OfferOf;
    hide LastOffer;
    hide Won;
    hide Before;
    if n == 0 {
      WinnerStart(x, bound, cs, eid, d, id);
    } else {
      Unfold(x, bound, cs, n);
      RoomyNext(x, bound, cs, n);
      MergeToUnique(x, bound, cs, n - 1);
      var m := MergeTo(x, bound, cs, n - 1).value;
      if Pinned(m.registry, eid, d) {
        RouteWinner(x, bound, cs, n - 1, eid, d, id);
      } else if LastOffer(x, cs, d, id, n - 1).Some? {
        PinnedOnce(x, bound, cs, n, eid, d, id);
      }
      if Pinned(bound, eid, d) { SavedPinned(x, bound, cs, n - 1, eid, d); }
      WinnerNext(x, bound, m, cs, n, eid, d, id);
    }
  }

  lemma WinnerStart(x: Rules, bound: Registry, cs: seq<Candidate>, eid: string, d: Identity, id: string)
    requires Sound(x)
    ensures MergeTo(x, bound, cs, 0) == Some(Merged(bound, [], []))
    ensures LastOffer(x, cs, d, id, 0).None?
    ensures Pinned(bound, eid, d) ==> Won(x, Before(bound, eid, d, id), cs, None, id, bound.endpoints[eid].routes)
  {
  }

  /** An identity that had an offer is pinned already, where it is pinned later. */
  lemma PinnedOnce(x: Rules, bound: Registry, cs: seq<Candidate>, n: nat, eid: string, d: Identity, id: string)
    requires Sound(x) && 0 < n <= |cs| && UniqueIdentities(bound) && Roomy(x, bound, cs, n) && MergeTo(x, bound, cs, n).Some?
    requires forall i :: 0 <= i < |cs| ==> x.identityOk(cs[i].identity)
    requires MergeTo(x, bound, cs, n - 1).Some? && LastOffer(x, cs, d, id, n - 1).Some?
    requires Pinned(MergeTo(x, bound, cs, n).value.registry, eid, d) && !d.Empty()
    ensures Pinned(MergeTo(x, bound, cs, n - 1).value.registry, eid, d)
  {
    hide MergeTo;
    hide MergeCandidate;
    hide Roomy;
    hide UniqueIdentities;
    hide RoomFor;
    hide Sound;
    hide LastOffer;
    Unfold(x, bound, cs, n);
    RoomyNext(x, bound, cs, n);
    MergeToUnique(x, bound, cs, n);
    NoTurnNoPin(x, bound, cs, n - 1, eid, d, id);
    var m := MergeTo(x, bound, cs, n - 1).value;
    var k :| Pinned(m.registry, k, d);
    PinStays(x, m.registry, cs[n - 1], k, d);
    OnePin(MergeTo(x, bound, cs, n).value.registry, d, k, eid);
  }

  lemma SavedPinned(x: Rules, bound: Registry, cs: seq<Candidate>, n: nat, eid: string, d: Identity)
    requires Sound(x) && n <= |cs| && MergeTo(x, bound, cs, n).Some? && Roomy(x, bound, cs, n) && Pinned(bound, eid, d)
    ensures Pinned(MergeTo(x, bound, cs, n).value.registry, eid, d)
  {
    hide MergeTo;
    hide Roomy;
    hide Sound;
    hide KeepsRoutes;
    MergeToKeeps(x, bound, cs, n);
    assert Kept(bound.endpoints[eid], MergeTo(x, bound, cs, n).value.registry.endpoints[eid]);
  }

  /**
   The endpoint a candidate was resolved to, after a successful assembly with IDs that suffice:
   each of its routes has the configuration of the highest-ranked, last-ordered offer among the
   one saved and those of all candidates of its identity.
   */
  lemma AssemblyTakes(x: Rules, reg: Registry, cs: seq<Candidate>, bs: seq<Binding>, out: Option<Result>, i: nat, id: string)
    requires Sound(x) && Assembles(x, reg, cs, bs, out) && out.Some? && i < |cs| && IdsSuffice(x, reg, cs, bs)
    ensures BindAll(x, reg, bs, Identities(SortCandidates(x, cs))).Some? && |out.value.resolved| == |cs|
    ensures var bound, eid, d := BindAll(x, reg, bs, Identities(SortCandidates(x, cs))).value, out.value.resolved[i], cs[i].identity;
            && Pinned(out.value.registry, eid, d)
            && Won(x, Before(bound, eid, d, id), SortCandidates(x, cs), LastOffer(x, SortCandidates(x, cs), d, id, |cs|), id,
                   out.value.registry.endpoints[eid].routes)
  {
    SoundDigests(x);
    hide Sound;
    hide Digests;
    hide SortCandidates;
    hide CensusAfter;
    hide RegistryOk;
    hide UniqueIdentities;
    hide MergeTo;
    hide AssembleSorted;
    hide Roomy;
    hide BindAll;
    hide Bound;
    hide Ordered;
    hide CandidateOk;
    hide Won;
    hide LastOffer;
    hide Before;
    AssemblySafe(x, reg, cs, bs, out);
    var sorted := SortCandidates(x, cs);
    SortOrdered(x, cs);
    var bound := Assembled(x, reg, sorted, bs);
    var ordered := BoundParts(x, reg, bs, Identities(sorted));
    NoneEmpty(x, sorted);
    BoundDescribed(reg, bound, bs, ordered);
    CensusFollows(x, CensusOf(reg, bs), bound, sorted, |sorted|);
    SameChecks(x, cs, sorted);
    assert cs[i] in sorted;
    assert out.value.registry == MergeTo(x, bound, sorted, |sorted|).value.registry;
    RouteWinner(x, bound, sorted, |sorted|, out.value.resolved[i], cs[i].identity, id);
  }

  // ------------------------------------------------------------------ newcomers wait for the user

  lemma {:induction false} PolicyRests(x: Rules, routes: map<string, Route>, c: Candidate, rs: seq<OfferedRoute>, n: nat)
    requires n <= |rs| && AddRoutes(x, routes, c, rs, n).Some? && !OwnsPolicy(c)
    requires forall i :: 0 <= i < |rs| ==> rs[i].policy == NO_POLICY
    ensures var out := AddRoutes(x, routes, c, rs, n).value;
            && (forall id :: id in routes ==> id in out && out[id].policy == routes[id].policy)
            && (forall id :: id in out && id !in routes ==> out[id].policy == NO_POLICY.(manualOnly := HasPrioritized(routes)))
            && (HasPrioritized(out) <==> HasPrioritized(routes))
  {
    if n > 0 {
      PolicyRests(x, routes, c, rs, n - 1);
      var before, out := AddRoutes(x, routes, c, rs, n - 1).value, AddRoutes(x, routes, c, rs, n).value;
      hide HasPrioritized;
      assert forall id :: id in routes ==> id in out && out[id].policy == routes[id].policy;
      SamePriorities(routes, out);
    } else {
      SamePriorities(routes, routes);
    }
  }

  lemma SamePriorities(routes: map<string, Route>, out: map<string, Route>)
    requires forall id :: id in routes ==> id in out && out[id].policy == routes[id].policy
    requires forall id :: id in out && id !in routes ==> out[id].policy.priority.None?
    ensures HasPrioritized(out) <==> HasPrioritized(routes)
  {
    if HasPrioritized(routes) {
      var id :| id in routes && Prioritized(routes[id]);
      assert Prioritized(out[id]);
    }
    if HasPrioritized(out) {
      var id :| id in out && Prioritized(out[id]);
      assert id in routes && Prioritized(routes[id]);
    }
  }

  /** A source without client policy changes no policy, and its new routes are tried by hand only once priorities are set. */
  lemma NewcomersWait(x: Rules, reg: Registry, c: Candidate, id: string)
    requires Sound(x) && CandidateOk(x, c) && MergeCandidate(x, reg, c).Some? && !OwnsPolicy(c)
    ensures var p, home := MergeCandidate(x, reg, c).value, RoutesOf(Home(reg, c));
            && p.id in p.registry.endpoints
            && var routes := p.registry.endpoints[p.id].routes;
               && (id in home ==> id in routes && routes[id].policy == home[id].policy)
               && (id in routes && id !in home ==> routes[id].policy == NO_POLICY.(manualOnly := HasPrioritized(home)))
  {
    hide AddRoutes;
    hide SortRoutes;
    hide HasPrioritized;
    var e, e' := MergeParts(x, reg, c);
    var base, routes := MergedEndpoint(x, reg, c);
    hide MergeCandidate;
    PlainRoutes(x, c);
    hide CandidateOk;
    var rs := SortRoutes(x, c.routes);
    PolicyRests(x, base.routes, c, rs, |rs|);
  }

  // ------------------------------------------------------------------ when a turn succeeds

  /** The kind a route ID has by what is saved, or by the first of n offers. */
  function FirstKind(routes: map<string, Route>, rs: seq<OfferedRoute>, n: nat, id: string): Option<Kind>
    requires n <= |rs|
  {
    if n == 0 then (if id in routes then Some(routes[id].kind) else None)
    else
      var before := FirstKind(routes, rs, n - 1, id);
      if before.None? && rs[n - 1].id == id then Some(rs[n - 1].kind) else before
  }

  /** Every offer agrees in kind with what is saved and with the offers before it. */
  ghost predicate KindsAgree(routes: map<string, Route>, rs: seq<OfferedRoute>, n: nat)
    requires n <= |rs|
  {
    forall i :: 0 <= i < n ==>
      FirstKind(routes, rs, i, rs[i].id).None? || FirstKind(routes, rs, i, rs[i].id) == Some(rs[i].kind)
  }

  function KindOf(routes: map<string, Route>, id: string): Option<Kind> {
    if id in routes then Some(routes[id].kind) else None
  }

  lemma {:induction false} KindsKept(x: Rules, routes: map<string, Route>, c: Candidate, rs: seq<OfferedRoute>, n: nat, id: string)
    requires n <= |rs| && AddRoutes(x, routes, c, rs, n).Some?
    ensures KindOf(AddRoutes(x, routes, c, rs, n).value, id) == FirstKind(routes, rs, n, id)
  {
    if n > 0 {
      KindsKept(x, routes, c, rs, n - 1, id);
      AddRouteTakes(x, AddRoutes(x, routes, c, rs, n - 1).value, c, rs[n - 1]);
      AddRouteKind(x, AddRoutes(x, routes, c, rs, n - 1).value, c, rs[n - 1]);
      hide AddRoute;
      hide Taken;
    }
  }

  /** One offer is taken exactly when it is admissible and of the kind the route has. */
  lemma AddRouteKind(x: Rules, routes: map<string, Route>, c: Candidate, r: OfferedRoute)
    ensures AddRoute(x, routes, c, r).Some? <==>
              RouteAdmissible(x, c, r) && (KindOf(routes, r.id).None? || KindOf(routes, r.id) == Some(r.kind))
    ensures AddRoute(x, routes, c, r).Some? ==> KindOf(AddRoute(x, routes, c, r).value, r.id) == Some(r.kind)
  {
    hide RouteAdmissible;
  }

  lemma {:induction false} AddRoutesIff(x: Rules, routes: map<string, Route>, c: Candidate, rs: seq<OfferedRoute>, n: nat)
    requires n <= |rs|
    ensures AddRoutes(x, routes, c, rs, n).Some? <==>
              (forall i :: 0 <= i < n ==> RouteAdmissible(x, c, rs[i])) && KindsAgree(routes, rs, n)
  {
    hide RouteAdmissible;
    hide FirstKind;
    if n > 0 {
      AddRoutesIff(x, routes, c, rs, n - 1);
      var before := AddRoutes(x, routes, c, rs, n - 1);
      if before.Some? {
        AddRouteKind(x, before.value, c, rs[n - 1]);
        KindsKept(x, routes, c, rs, n - 1, rs[n - 1].id);
      }
      hide AddRoute;
      hide KindOf;
    }
  }

  /** A turn succeeds exactly when no identity clashes, every offer is admissible, and kinds agree. */
  lemma TurnSucceedsIff(x: Rules, reg: Registry, c: Candidate)
    requires Sound(x)
    ensures var rs := SortRoutes(x, c.routes);
            MergeCandidate(x, reg, c).Some? <==>
              && !Conflicts(reg, c.identity)
              && (forall i :: 0 <= i < |rs| ==> RouteAdmissible(x, c, rs[i]))
              && KindsAgree(RoutesOf(Home(reg, c)), rs, |rs|)
  {
    hide SortRoutes;
    hide AddRoutes;
    hide RouteAdmissible;
    hide KindsAgree;
    hide Conflicts;
    var rs := SortRoutes(x, c.routes);
    AddRoutesIff(x, RoutesOf(Home(reg, c)), c, rs, |rs|);
  }

  // ------------------------------------------------------------------ credentials

  ghost predicate ById(x: Rules, cs: seq<Credential>) {
    forall i, j :: 0 <= i < j < |cs| ==> x.textKey(cs[i].id) <= x.textKey(cs[j].id)
  }

  ghost predicate OncePerId(x: Rules, cs: seq<Credential>) {
    forall i, j :: 0 <= i < j < |cs| ==> x.textKey(cs[i].id) < x.textKey(cs[j].id)
  }

  /** No ID is described in two ways. */
  ghost predicate Consistent(cs: seq<Credential>) {
    forall a, b :: a in cs && b in cs && a.id == b.id ==> a == b
  }

  lemma {:induction false} InsertById(x: Rules, sorted: seq<Credential>, c: Credential)
    requires ById(x, sorted)
    ensures ById(x, InsertCredential(x, sorted, c))
    ensures forall t :: t in InsertCredential(x, sorted, c) <==> t in sorted || t == c
  {
    if sorted != [] && CredentialLater(x, sorted[|sorted| - 1], c) {
      var init, last := sorted[..|sorted| - 1], sorted[|sorted| - 1];
      assert sorted == init + [last];
      InsertById(x, init, c);
      var rest := InsertCredential(x, init, c);
      forall i | 0 <= i < |rest| ensures x.textKey(rest[i].id) <= x.textKey(last.id) {
        assert rest[i] in rest;
        assert rest[i] in init || rest[i] == c;
      }
    }
  }

  lemma {:induction false} SortById(x: Rules, cs: seq<Credential>)
    ensures ById(x, SortCredentials(x, cs)) && forall t :: t in SortCredentials(x, cs) <==> t in cs
  {
    if cs != [] {
      var init := cs[..|cs| - 1];
      assert cs == init + [cs[|cs| - 1]];
      SortById(x, init);
      InsertById(x, SortCredentials(x, init), cs[|cs| - 1]);
    }
  }

  lemma {:induction false} DedupeExact(x: Rules, cs: seq<Credential>)
    requires Sound(x) && ById(x, cs)
    ensures Dedupe(cs).Some? <==> Consistent(cs)
    ensures Dedupe(cs).Some? ==> OncePerId(x, Dedupe(cs).value) && forall t :: t in Dedupe(cs).value <==> t in cs
  {
    if cs != [] {
      var init, last := cs[..|cs| - 1], cs[|cs| - 1];
      assert cs == init + [last];
      assert forall t :: t in cs <==> t in init || t == last;
      DedupeExact(x, init);
      if Dedupe(init).Some? { DedupeLast(x, init, Dedupe(init).value, last); }
    }
  }

  lemma DedupeLast(x: Rules, init: seq<Credential>, out: seq<Credential>, last: Credential)
    requires Sound(x) && Consistent(init) && OncePerId(x, out) && forall t :: t in out <==> t in init
    requires forall t :: t in init ==> x.textKey(t.id) <= x.textKey(last.id)
    ensures var same := out != [] && out[|out| - 1].id == last.id;
            && (same ==> (out[|out| - 1] == last <==> Consistent(init + [last])))
            && (!same ==> Consistent(init + [last]) && OncePerId(x, out + [last]))
  {
    assert forall t :: t in init + [last] <==> t in init || t == last;
    if out != [] {
      assert out[|out| - 1] in out;
      forall t | t in init && t.id == last.id ensures t == out[|out| - 1] && out[|out| - 1].id == last.id {
        assert t in out;
        var i :| 0 <= i < |out| && out[i] == t;
        assert x.textKey(out[|out| - 1].id) <= x.textKey(last.id);
      }
    } else {
      assert forall t :: t in init ==> t in out;
    }
    forall i | 0 <= i < |out| ensures x.textKey(out[i].id) <= x.textKey(last.id) { assert out[i] in out; }
    if out != [] && out[|out| - 1].id != last.id {
      assert x.textKey(out[|out| - 1].id) != x.textKey(last.id);
    }
  }

  lemma {:induction false} MergedCredentials(x: Rules, reg: Registry, cs: seq<Candidate>, n: nat, t: Credential)
    requires Sound(x) && n <= |cs| && MergeTo(x, reg, cs, n).Some?
    ensures t in MergeTo(x, reg, cs, n).value.credentials <==> exists i :: 0 <= i < n && t in cs[i].credentials
  {
    hide MergeCandidate;
    hide Sound;
    if n > 0 {
      MergedCredentials(x, reg, cs, n - 1, t);
      if t in cs[n - 1].credentials { assert 0 <= n - 1 < n; }
    }
  }

  /** A result's credentials are exactly those of the candidates, one per ID in the order of the IDs. */
  lemma CredentialsExact(x: Rules, reg: Registry, cs: seq<Candidate>, bs: seq<Binding>, out: Option<Result>, t: Credential)
    requires Sound(x) && Assembles(x, reg, cs, bs, out) && out.Some?
    ensures t in out.value.credentials <==> exists i :: 0 <= i < |cs| && t in cs[i].credentials
    ensures OncePerId(x, out.value.credentials)
  {
    hide SortCandidates;
    hide MergeTo;
    hide Dedupe;
    hide SortCredentials;
    var sorted := SortCandidates(x, cs);
    var bound := Assembled(x, reg, sorted, bs);
    var m := MergeTo(x, bound, sorted, |sorted|).value;
    assert Dedupe(SortCredentials(x, m.credentials)) == Some(out.value.credentials);
    hide AssembleSorted;
    hide RegistryOk;
    SortById(x, m.credentials);
    DedupeExact(x, SortCredentials(x, m.credentials));
    hide Sound;
    MergedCredentials(x, bound, sorted, |sorted|, t);
    SortOrdered(x, cs);
    SameChecks(x, cs, sorted);
    if i :| 0 <= i < |cs| && t in cs[i].credentials {
      assert cs[i] in sorted;
      var p :| 0 <= p < |sorted| && sorted[p] == cs[i];
    }
    if p :| 0 <= p < |sorted| && t in sorted[p].credentials {
      assert sorted[p] in cs;
      var i :| 0 <= i < |cs| && cs[i] == sorted[p];
    }
  }
}
