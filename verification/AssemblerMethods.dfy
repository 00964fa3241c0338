/** AssembleEndpoints as it runs: loops over candidates, routes and endpoints of a copied registry. */
module AssemblerMethods {
  import opened Assembler
  import opened AssemblerProofs
  import opened AssemblerSafety
  import AssemblerEffects

  /** findEndpointByIdentity; `ok` is false when the identity is pinned another way. */
  method FindByIdentity(reg: Registry, identity: Identity) returns (ok: bool, found: Option<string>)
    requires UniqueIdentities(reg) && !identity.Empty()
    ensures ok <==> !Conflicts(reg, identity)
    ensures ok ==> found == Find(reg, identity)
  {
    hide UniqueIdentities;
    ok, found := true, None;
    var left := reg.endpoints.Keys;
    while left != {}
      invariant left <= reg.endpoints.Keys
      invariant found.Some? ==> Pinned(reg, found.value, identity)
      invariant found.None? ==> forall id :: id in reg.endpoints && id !in left ==> !Pinned(reg, id, identity)
      invariant forall id :: id in reg.endpoints && id !in left ==> !Clashes(reg.endpoints[id].identity, identity)
      decreases |left|
    {
      var id :| id in left;
      var current := reg.endpoints[id].identity;
      if !current.Empty() {
        if current.fingerprint == identity.fingerprint {
          if current.deviceId != identity.deviceId {
            assert Clashes(reg.endpoints[id].identity, identity);
            return false, None;
          }
          found := Some(id);
        }
        if current.deviceId == identity.deviceId && current.fingerprint != identity.fingerprint {
          assert Clashes(reg.endpoints[id].identity, identity);
          return false, None;
        }
      }
      left := left - {id};
    }
    if found.Some? {
      assert Find(reg, identity).Some?;
      OnePin(reg, identity, found.value, Find(reg, identity).value);
    }
  }

  /** deriveEndpointID */
  method DeriveEndpointId(x: Rules, fingerprint: string, reg: Registry) returns (id: string)
    requires |x.digest(fingerprint)| == 64
    ensures id == DeriveFrom(x, fingerprint, reg.endpoints.Keys, 0)
  {
    var encoded := x.digest(fingerprint);
    var size := 12;
    ghost var i := 0;
    while size <= |encoded|
      invariant 12 <= size && size == 12 + 4 * i && i <= 14
      invariant i < 14 ==> DeriveFrom(x, fingerprint, reg.endpoints.Keys, 0) == DeriveFrom(x, fingerprint, reg.endpoints.Keys, i)
      invariant i == 14 ==> DeriveFrom(x, fingerprint, reg.endpoints.Keys, 0) == DerivedId(x, fingerprint, 13)
      decreases 80 - size
    {
      id := ID_PREFIX + encoded[..size];
      assert id == DerivedId(x, fingerprint, i);
      if id !in reg.endpoints {
        return;
      }
      size := size + 4;
      i := i + 1;
    }
    assert encoded[..64] == encoded;
    id := ID_PREFIX + encoded;
  }

  /** The route loop of one candidate. */
  method MergeRoutes(x: Rules, routes: map<string, Route>, c: Candidate) returns (out: Option<map<string, Route>>)
    ensures out == AddRoutes(x, routes, c, SortRoutes(x, c.routes), |SortRoutes(x, c.routes)|)
    ensures out.Some? && CandidateOk(x, c) ==> forall id :: AssemblerEffects.OfferTaken(x, routes, c, out.value, id)
  {
    hide MergeRoute;
    var rs := SortRoutes(x, c.routes);
    hide SortRoutes;
    var merged := routes;
    for n := 0 to |rs|
      invariant AddRoutes(x, routes, c, rs, n) == Some(merged)
    {
      var r := rs[n];
      if !RouteAdmissible(x, c, r) {
        RoutesFail(x, routes, c, rs, n + 1, |rs|);
        return None;
      }
      if r.id in merged {
        if merged[r.id].kind != r.kind {
          RoutesFail(x, routes, c, rs, n + 1, |rs|);
          return None;
        }
        merged := merged[r.id := MergeRoute(merged[r.id], Incoming(c, r), OwnsPolicy(c), Forces(c))];
      } else {
        merged := merged[r.id := NewRoute(merged, c, r)];
      }
    }
    out := Some(merged);
    if CandidateOk(x, c) {
      AssemblerEffects.OffersTaken(x, routes, c, merged);
    }
  }

  lemma {:induction false} RoutesFail(x: Rules, routes: map<string, Route>, c: Candidate, rs: seq<OfferedRoute>, k: nat, n: nat)
    requires k <= n <= |rs| && AddRoutes(x, routes, c, rs, k).None?
    ensures AddRoutes(x, routes, c, rs, n).None?
  {
    hide AddRoute;
    if k < n { RoutesFail(x, routes, c, rs, k, n - 1); }
  }

  /** One candidate's turn. */
  method PlaceCandidate(x: Rules, reg: Registry, c: Candidate) returns (placed: Option<Placed>)
    requires Sound(x) && UniqueIdentities(reg) && x.identityOk(c.identity)
    ensures placed == MergeCandidate(x, reg, c)
  {
    assert |x.digest(c.identity.fingerprint)| == 64 && !c.identity.Empty();
    hide Sound;
    hide UniqueIdentities;
    hide AddRoutes;
    hide SortRoutes;
    hide DeriveFrom;
    hide Conflicts;
    var ok, found := FindByIdentity(reg, c.identity);
    if !ok {
      return None;
    }
    var id, e;
    if found.Some? {
      id := found.value;
      e := Relabelled(reg.endpoints[id], c);
    } else {
      id := DeriveEndpointId(x, c.identity.fingerprint, reg);
      e := NewEndpoint(c);
    }
    e := WithPolicy(e, c);
    var routes := MergeRoutes(x, e.routes, c);
    if routes.None? {
      return None;
    }
    var merged := Registry(if reg.default == "" then id else reg.default, reg.endpoints[id := e.(routes := routes.value)]);
    placed := Some(Placed(merged, id));
  }

  datatype Indexed = Indexed(index: nat, candidate: Candidate)

  function Candidates(items: seq<Indexed>): (cs: seq<Candidate>)
    ensures |cs| == |items| && forall i :: 0 <= i < |cs| ==> cs[i] == items[i].candidate
  {
    seq(|items|, i requires 0 <= i < |items| => items[i].candidate)
  }

  /** Stable insertion by the order of candidates alone. */
  function InsertIndexed(x: Rules, sorted: seq<Indexed>, item: Indexed): (out: seq<Indexed>)
    ensures |out| == |sorted| + 1
    ensures forall t :: t in sorted || t == item ==> t in out
    ensures forall t :: t in out ==> t in sorted || t == item
  {
    if sorted != [] && Later(x, sorted[|sorted| - 1].candidate, item.candidate)
    then
      assert sorted == sorted[..|sorted| - 1] + [sorted[|sorted| - 1]];
      InsertIndexed(x, sorted[..|sorted| - 1], item) + [sorted[|sorted| - 1]]
    else sorted + [item]
  }

  lemma {:induction false} InsertProjects(x: Rules, sorted: seq<Indexed>, item: Indexed)
    ensures Candidates(InsertIndexed(x, sorted, item)) == InsertCandidate(x, Candidates(sorted), item.candidate)
  {
    hide Later;
    if sorted != [] && Later(x, sorted[|sorted| - 1].candidate, item.candidate) {
      var init := sorted[..|sorted| - 1];
      InsertProjects(x, init, item);
      assert Candidates(init) == Candidates(sorted)[..|sorted| - 1];
    }
  }

  /** sort.SliceStable on the indexed candidates. */
  method SortIndexed(x: Rules, cs: seq<Candidate>) returns (items: seq<Indexed>)
    ensures Candidates(items) == SortCandidates(x, cs)
    ensures forall p :: 0 <= p < |items| ==> items[p].index < |cs| && items[p].candidate == cs[items[p].index]
    ensures forall i :: 0 <= i < |cs| ==> Indexed(i, cs[i]) in items
  {
    hide InsertIndexed;
    hide InsertCandidate;
    items := [];
    for n := 0 to |cs|
      invariant Candidates(items) == SortCandidates(x, cs[..n])
      invariant forall t :: t in items ==> t.index < n && t.candidate == cs[t.index]
      invariant forall i :: 0 <= i < n ==> Indexed(i, cs[i]) in items
    {
      assert cs[..n + 1][..n] == cs[..n];
      InsertProjects(x, items, Indexed(n, cs[n]));
      items := InsertIndexed(x, items, Indexed(n, cs[n]));
    }
    assert cs[..|cs|] == cs;
    forall p | 0 <= p < |items| ensures items[p].index < |cs| && items[p].candidate == cs[items[p].index] {
      assert items[p] in items;
    }
  }

  datatype Loop = Loop(registry: Registry, resolved: seq<string>, credentials: seq<Credential>)

  /** The candidate loop: `resolved` is filled at each candidate's original place. */
  method MergeAll(x: Rules, reg: Registry, items: seq<Indexed>, count: nat) returns (out: Option<Loop>, ghost ids: seq<string>)
    requires Sound(x) && UniqueIdentities(reg)
    requires forall p :: 0 <= p < |items| ==> items[p].index < count && x.identityOk(items[p].candidate.identity)
    ensures var m := MergeTo(x, reg, Candidates(items), |items|);
            if out.None? then m.None?
            else && m.Some? && m.value.registry == out.value.registry && m.value.credentials == out.value.credentials
                 && ids == m.value.ids && |ids| == |items| && |out.value.resolved| == count
                 && forall i :: 0 <= i < count && (exists p :: 0 <= p < |items| && items[p].index == i) ==>
                      exists p :: 0 <= p < |items| && items[p].index == i && ids[p] == out.value.resolved[i]
  {
    hide Sound;
    hide UniqueIdentities;
    hide MergeCandidate;
    ghost var cs := Candidates(items);
    var registry, credentials := reg, [];
    var resolved := seq(count, _ => "");
    ids := [];
    for n := 0 to |items|
      invariant |resolved| == count && |ids| == n
      invariant MergeTo(x, reg, cs, n) == Some(Merged(registry, ids, credentials))
      invariant forall p :: 0 <= p < n ==> Written(items, ids, resolved, p, n)
    {
      MergeToUnique(x, reg, cs, n);
      var item := items[n];
      var placed := PlaceCandidate(x, registry, item.candidate);
      if placed.None? || !CredentialsOk(x, item.candidate.credentials) {
        MergeFails(x, reg, cs, n + 1, |items|);
        return None, ids;
      }
      registry := placed.value.registry;
      ghost var was, earlier := resolved, ids;
      resolved := resolved[item.index := placed.value.id];
      credentials := credentials + item.candidate.credentials;
      ids := ids + [placed.value.id];
      ghost var m := n + 1;
      forall p | 0 <= p < m ensures Written(items, ids, resolved, p, m) {
        if p < n { WrittenOn(items, earlier, was, p, n, ids, resolved); }
      }
    }
    forall i | 0 <= i < count && exists p :: 0 <= p < |items| && items[p].index == i
      ensures exists p :: 0 <= p < |items| && items[p].index == i && ids[p] == resolved[i]
    {
      var p :| 0 <= p < |items| && items[p].index == i;
      assert Written(items, ids, resolved, p, |items|);
    }
    out := Some(Loop(registry, resolved, credentials));
  }

  /** The place of item p holds the ID of an item with that place. */
  ghost predicate Written(items: seq<Indexed>, ids: seq<string>, resolved: seq<string>, p: nat, n: nat) {
    p < n <= |items| && n <= |ids| && items[p].index < |resolved|
    && exists q :: 0 <= q < n && items[q].index == items[p].index && ids[q] == resolved[items[p].index]
  }

  lemma WrittenOn(items: seq<Indexed>, ids: seq<string>, resolved: seq<string>, p: nat, n: nat, ids': seq<string>, resolved': seq<string>)
    requires Written(items, ids, resolved, p, n) && n < |items| && |ids| == n && |ids'| == n + 1 && ids' == ids + [ids'[n]]
    requires items[n].index < |resolved| && resolved' == resolved[items[n].index := ids'[n]]
    ensures Written(items, ids', resolved', p, n + 1)
  {
    if items[p].index == items[n].index {
      assert items[n].index == items[p].index && ids'[n] == resolved'[items[p].index];
    } else {
      var q :| 0 <= q < n && items[q].index == items[p].index && ids[q] == resolved[items[p].index];
      assert ids'[q] == ids[q];
    }
  }

  lemma {:induction false} MergeFails(x: Rules, reg: Registry, cs: seq<Candidate>, k: nat, n: nat)
    requires Sound(x) && k <= n <= |cs| && MergeTo(x, reg, cs, k).None?
    ensures MergeTo(x, reg, cs, n).None?
  {
    hide Sound;
    hide MergeCandidate;
    if k < n { MergeFails(x, reg, cs, k, n - 1); }
  }

  // ------------------------------------------------------------------ Normalize

  /** Endpoint.Validate: the priority flags go over all routes. */
  method ValidEndpoint(x: Rules, e: Endpoint) returns (ok: bool)
    ensures ok == EndpointOk(x, e)
  {
    if e.routes == map[] || !x.selectionOk(e.selection) || !(e.identity.Empty() || x.identityOk(e.identity)) {
      return false;
    }
    var anyPriority, allPriority := false, true;
    var left := e.routes.Keys;
    while left != {}
      invariant left <= e.routes.Keys
      invariant forall id :: id in e.routes && id !in left ==> x.idOk(id) && x.routeOk(e.routes[id], e.identity)
      invariant anyPriority <==> exists id :: id in e.routes && id !in left && Prioritized(e.routes[id])
      invariant allPriority <==> forall id :: id in e.routes && id !in left ==> !Unprioritized(e.routes[id])
      decreases |left|
    {
      var id :| id in left;
      var route := e.routes[id];
      if !x.idOk(id) || !x.routeOk(route, e.identity) {
        return false;
      }
      if route.policy.enabled && !route.policy.manualOnly {
        anyPriority := anyPriority || route.policy.priority.Some?;
        allPriority := allPriority && route.policy.priority.Some?;
      }
      assert Prioritized(route) || !Prioritized(e.routes[id]);
      assert Unprioritized(route) || !Unprioritized(e.routes[id]);
      left := left - {id};
    }
    assert anyPriority <==> HasPrioritized(e.routes);
    assert allPriority <==> forall id :: id in e.routes && e.routes[id].policy.enabled && !e.routes[id].policy.manualOnly ==>
                                           e.routes[id].policy.priority.Some? by {
      forall id | id in e.routes ensures Unprioritized(e.routes[id]) <==>
        e.routes[id].policy.enabled && !e.routes[id].policy.manualOnly && !e.routes[id].policy.priority.Some? {}
    }
    ok := !anyPriority || allPriority;
  }

  predicate Unprioritized(r: Route) {
    r.policy.enabled && !r.policy.manualOnly && r.policy.priority.None?
  }

  /** The registry accepted so far: devices and fingerprints lead to the endpoint they are pinned at. */
  ghost predicate Recorded(reg: Registry, left: set<string>, devices: map<string, string>, fingerprints: map<string, string>) {
    && (forall id :: id in reg.endpoints && id !in left && !reg.endpoints[id].identity.Empty() ==>
          && reg.endpoints[id].identity.deviceId in devices && devices[reg.endpoints[id].identity.deviceId] == id
          && reg.endpoints[id].identity.fingerprint in fingerprints
          && fingerprints[reg.endpoints[id].identity.fingerprint] == id)
    && (forall d :: d in devices ==> devices[d] in reg.endpoints && devices[d] !in left
                                     && !reg.endpoints[devices[d]].identity.Empty()
                                     && reg.endpoints[devices[d]].identity.deviceId == d)
    && (forall f :: f in fingerprints ==> fingerprints[f] in reg.endpoints && fingerprints[f] !in left
                                          && !reg.endpoints[fingerprints[f]].identity.Empty()
                                          && reg.endpoints[fingerprints[f]].identity.fingerprint == f)
  }

  lemma RecordedUnique(reg: Registry, devices: map<string, string>, fingerprints: map<string, string>)
    requires Recorded(reg, {}, devices, fingerprints)
    ensures UniqueIdentities(reg)
  {
  }

  lemma RecordedNext(reg: Registry, left: set<string>, devices: map<string, string>, fingerprints: map<string, string>, id: string)
    requires Recorded(reg, left, devices, fingerprints) && id in left && id in reg.endpoints
    ensures reg.endpoints[id].identity.Empty() ==> Recorded(reg, left - {id}, devices, fingerprints)
    ensures !reg.endpoints[id].identity.Empty() && reg.endpoints[id].identity.deviceId !in devices
            && reg.endpoints[id].identity.fingerprint !in fingerprints ==>
              Recorded(reg, left - {id}, devices[reg.endpoints[id].identity.deviceId := id],
                       fingerprints[reg.endpoints[id].identity.fingerprint := id])
    ensures var identity := reg.endpoints[id].identity;
            !identity.Empty() && (identity.deviceId in devices || identity.fingerprint in fingerprints) ==>
              !UniqueIdentities(reg)
  {
  }

  /** Normalize's verdict; a registry it accepts is returned as it is. */
  method Normalize(x: Rules, reg: Registry) returns (ok: bool)
    ensures ok == RegistryOk(x, reg)
  {
    if reg.endpoints == map[] {
      return reg.default == "";
    }
    var devices: map<string, string>, fingerprints: map<string, string> := map[], map[];
    var left := reg.endpoints.Keys;
    hide EndpointOk;
    hide UniqueIdentities;
    assert Recorded(reg, left, devices, fingerprints);
    hide Recorded;
    while left != {}
      invariant left <= reg.endpoints.Keys && Recorded(reg, left, devices, fingerprints)
      invariant forall id :: id in reg.endpoints && id !in left ==> x.idOk(id) && EndpointOk(x, reg.endpoints[id])
      decreases |left|
    {
      var id :| id in left;
      var e := reg.endpoints[id];
      var valid := ValidEndpoint(x, e);
      if !x.idOk(id) || !valid {
        return false;
      }
      RecordedNext(reg, left, devices, fingerprints, id);
      if !e.identity.Empty() {
        if e.identity.deviceId in devices || e.identity.fingerprint in fingerprints {
          return false;
        }
        devices := devices[e.identity.deviceId := id];
        fingerprints := fingerprints[e.identity.fingerprint := id];
      }
      left := left - {id};
    }
    RecordedUnique(reg, devices, fingerprints);
    ok := reg.default in reg.endpoints && reg.endpoints[reg.default].enabled;
  }

  // ------------------------------------------------------------------ the whole assembly

  lemma BindUnique(x: Rules, reg: Registry, seen: seq<Binding>, b: Binding, verified: set<Identity>)
    requires UniqueIdentities(reg) && Bind(x, reg, seen, b, verified).Some?
    ensures UniqueIdentities(Bind(x, reg, seen, b, verified).value)
  {
    var reg' := Bind(x, reg, seen, b, verified).value;
    if reg' != reg {
      forall a | a in reg.endpoints && a != b.endpoint && !reg.endpoints[a].identity.Empty()
        ensures reg.endpoints[a].identity.deviceId != b.identity.deviceId
        ensures reg.endpoints[a].identity.fingerprint != b.identity.fingerprint
      {
        assert !Clashes(reg.endpoints[a].identity, b.identity) && !Pinned(reg, a, b.identity);
      }
    }
  }

  lemma {:induction false} BindFails(x: Rules, reg: Registry, bs: seq<Binding>, verified: set<Identity>, k: nat, n: nat)
    requires k <= n <= |bs| && BindTo(x, reg, bs, verified, k).None?
    ensures BindTo(x, reg, bs, verified, n).None?
  {
    hide Bind;
    if k < n { BindFails(x, reg, bs, verified, k, n - 1); }
  }

  /** What the two sets remember of the bindings so far. */
  ghost predicate Seen(seen: seq<Binding>, endpoints: set<string>, identities: set<Identity>) {
    endpoints == (set b | b in seen :: b.endpoint) && identities == (set b | b in seen :: b.identity)
  }

  lemma SeenNext(seen: seq<Binding>, endpoints: set<string>, identities: set<Identity>, b: Binding)
    requires Seen(seen, endpoints, identities)
    ensures Seen(seen + [b], endpoints + {b.endpoint}, identities + {b.identity})
  {
    assert b in seen + [b];
  }

  lemma SeenDecides(x: Rules, reg: Registry, seen: seq<Binding>, b: Binding, verified: set<Identity>,
                    endpoints: set<string>, identities: set<Identity>)
    requires Seen(seen, endpoints, identities)
    ensures BindingOk(x, reg, seen, b, verified) <==>
              && x.idOk(b.endpoint) && x.identityOk(b.identity) && b.identity in verified
              && b.endpoint !in endpoints && b.identity !in identities && b.endpoint in reg.endpoints
  {
    assert forall i :: 0 <= i < |seen| ==> seen[i] in seen;
  }

  /** One binding's turn. */
  method BindOne(x: Rules, reg: Registry, b: Binding, verified: set<Identity>, endpoints: set<string>,
                 identities: set<Identity>, ghost seen: seq<Binding>) returns (out: Option<Registry>)
    requires Sound(x) && UniqueIdentities(reg) && Seen(seen, endpoints, identities)
    ensures out == Bind(x, reg, seen, b, verified) && (out.Some? ==> UniqueIdentities(out.value))
  {
    assert x.identityOk(b.identity) ==> !b.identity.Empty();
    hide Sound;
    hide UniqueIdentities;
    hide Conflicts;
    hide Seen;
    SeenDecides(x, reg, seen, b, verified, endpoints, identities);
    hide BindingOk;
    if !x.idOk(b.endpoint) || !x.identityOk(b.identity) || b.identity !in verified
       || b.endpoint in endpoints || b.identity in identities || b.endpoint !in reg.endpoints {
      return None;
    }
    var e := reg.endpoints[b.endpoint];
    if !e.identity.Empty() {
      if e.identity != b.identity {
        return None;
      }
      return Some(reg);
    }
    var ok, found := FindByIdentity(reg, b.identity);
    if !ok || found.Some? {
      return None;
    }
    BindUnique(x, reg, seen, b, verified);
    out := Some(reg.(endpoints := reg.endpoints[b.endpoint := e.(identity := b.identity)]));
  }

  /** applyConfirmedIdentityBindings */
  method ApplyBindings(x: Rules, reg: Registry, bs: seq<Binding>, verified: set<Identity>) returns (out: Option<Registry>)
    requires Sound(x) && UniqueIdentities(reg)
    ensures out == BindAll(x, reg, bs, verified)
  {
    hide Sound;
    hide UniqueIdentities;
    hide RegistryOk;
    hide Bind;
    hide Seen;
    var ordered := SortBindings(x, bs);
    hide SortBindings;
    var bound := reg;
    var endpoints: set<string>, identities: set<Identity> := {}, {};
    assert Seen(ordered[..0], endpoints, identities) by { NothingSeen(ordered[..0]); }
    for n := 0 to |ordered|
      invariant BindTo(x, reg, ordered, verified, n) == Some(bound) && UniqueIdentities(bound)
      invariant Seen(ordered[..n], endpoints, identities)
    {
      var b := ordered[n];
      var next := BindOne(x, bound, b, verified, endpoints, identities, ordered[..n]);
      if next.None? {
        BindFails(x, reg, ordered, verified, n + 1, |ordered|);
        return None;
      }
      SeenNext(ordered[..n], endpoints, identities, b);
      assert ordered[..n + 1] == ordered[..n] + [b];
      endpoints := endpoints + {b.endpoint};
      identities := identities + {b.identity};
      bound := next.value;
    }
    if ordered == [] {
      return Some(bound);
    }
    var valid := Normalize(x, bound);
    out := if valid then Some(bound) else None;
  }

  lemma NothingSeen(seen: seq<Binding>)
    requires seen == []
    ensures Seen(seen, {}, {})
  {
  }

  /** The checks on every candidate before anything is merged, and the identities they verify. */
  method CheckCandidates(x: Rules, cs: seq<Candidate>) returns (ok: bool, verified: set<Identity>)
    ensures ok <==> forall i :: 0 <= i < |cs| ==> CandidateOk(x, cs[i])
    ensures ok ==> verified == Identities(cs)
  {
    verified := {};
    for n := 0 to |cs|
      invariant forall i :: 0 <= i < n ==> CandidateOk(x, cs[i])
      invariant verified == set i | 0 <= i < n :: cs[i].identity
    {
      if !CandidateOk(x, cs[n]) {
        return false, {};
      }
      verified := verified + {cs[n].identity};
    }
    ok := true;
  }

  lemma SameIdentities(x: Rules, cs: seq<Candidate>, sorted: seq<Candidate>)
    requires multiset(sorted) == multiset(cs)
    ensures Identities(sorted) == Identities(cs)
    ensures (forall i :: 0 <= i < |cs| ==> CandidateOk(x, cs[i])) <==> (forall i :: 0 <= i < |sorted| ==> CandidateOk(x, sorted[i]))
  {
    hide CandidateOk;
    SameChecks(x, cs, sorted);
    forall d ensures d in Identities(sorted) <==> d in Identities(cs) {
      if d in Identities(sorted) {
        var i :| 0 <= i < |sorted| && sorted[i].identity == d;
        assert sorted[i] in cs;
      }
      if d in Identities(cs) {
        var i :| 0 <= i < |cs| && cs[i].identity == d;
        assert cs[i] in sorted;
      }
    }
    if forall i :: 0 <= i < |cs| ==> CandidateOk(x, cs[i]) {
      forall i | 0 <= i < |sorted| ensures CandidateOk(x, sorted[i]) { assert sorted[i] in cs; }
    }
    if forall i :: 0 <= i < |sorted| ==> CandidateOk(x, sorted[i]) {
      forall i | 0 <= i < |cs| ensures CandidateOk(x, cs[i]) { assert cs[i] in sorted; }
    }
  }

  lemma BindAllUnique(x: Rules, reg: Registry, bs: seq<Binding>, verified: set<Identity>)
    requires RegistryOk(x, reg) && BindAll(x, reg, bs, verified).Some?
    ensures UniqueIdentities(BindAll(x, reg, bs, verified).value)
  {
    hide BindTo;
    NoBindings(x, reg, bs, verified);
    OkIsUnique(x, BindAll(x, reg, bs, verified).value);
  }

  /** What follows the bindings: all candidates merged, the result checked. */
  ghost predicate Completes(x: Rules, bound: Registry, cs: seq<Candidate>, sorted: seq<Candidate>, out: Option<Result>)
    requires Sound(x)
  {
    var m := MergeTo(x, bound, sorted, |sorted|);
    if m.None? || Dedupe(SortCredentials(x, m.value.credentials)).None? || !RegistryOk(x, m.value.registry) then out.None?
    else
      && out.Some? && out.value.registry == m.value.registry
      && Some(out.value.credentials) == Dedupe(SortCredentials(x, m.value.credentials))
      && |m.value.ids| == |sorted| && |out.value.resolved| == |cs|
      && (forall i :: 0 <= i < |cs| ==> Resolves(sorted, m.value.ids, cs[i], out.value.resolved[i]))
  }

  method Complete(x: Rules, bound: Registry, cs: seq<Candidate>) returns (out: Option<Result>)
    requires Sound(x) && UniqueIdentities(bound) && forall c :: c in cs ==> x.identityOk(c.identity)
    ensures Completes(x, bound, cs, SortCandidates(x, cs), out)
  {
    hide Sound;
    hide RegistryOk;
    hide MergeTo;
    hide UniqueIdentities;
    hide SortCandidates;
    hide Dedupe;
    hide SortCredentials;
    ghost var sorted := SortCandidates(x, cs);
    var items := SortIndexed(x, cs);
    forall p | 0 <= p < |items| ensures x.identityOk(items[p].candidate.identity) {
      assert cs[items[p].index] in cs;
    }
    var merged, ids := MergeAll(x, bound, items, |cs|);
    if merged.None? {
      return None;
    }
    var valid := Normalize(x, merged.value.registry);
    var credentials := Dedupe(SortCredentials(x, merged.value.credentials));
    if !valid || credentials.None? {
      return None;
    }
    out := Some(Result(merged.value.registry, merged.value.resolved, credentials.value));
    ghost var m := MergeTo(x, bound, sorted, |sorted|);
    assert m.Some? && m.value.ids == ids;
    forall i | 0 <= i < |cs| ensures Resolves(sorted, m.value.ids, cs[i], out.value.resolved[i]) {
      var q :| 0 <= q < |items| && items[q] == Indexed(i, cs[i]);
      var p :| 0 <= p < |items| && items[p].index == i && ids[p] == merged.value.resolved[i];
      assert sorted[p] == items[p].candidate == cs[i];
    }
  }

  lemma CompletesAssembly(x: Rules, reg: Registry, cs: seq<Candidate>, bs: seq<Binding>, bound: Registry, out: Option<Result>)
    requires Sound(x) && RegistryOk(x, reg) && forall i :: 0 <= i < |cs| ==> CandidateOk(x, cs[i])
    requires BindAll(x, reg, bs, Identities(cs)) == Some(bound)
    requires Completes(x, bound, cs, SortCandidates(x, cs), out)
    ensures Assembles(x, reg, cs, bs, out)
  {
    hide Sound;
    hide RegistryOk;
    hide CandidateOk;
    hide BindAll;
    hide MergeTo;
    hide SortCandidates;
    hide Dedupe;
    hide SortCredentials;
    SortOrdered(x, cs);
    SameIdentities(x, cs, SortCandidates(x, cs));
  }

  lemma AssemblyFails(x: Rules, reg: Registry, cs: seq<Candidate>, bs: seq<Binding>)
    requires Sound(x)
    requires !RegistryOk(x, reg) || (exists i :: 0 <= i < |cs| && !CandidateOk(x, cs[i])) || BindAll(x, reg, bs, Identities(cs)).None?
    ensures Assembles(x, reg, cs, bs, None)
  {
    hide Sound;
    hide RegistryOk;
    hide CandidateOk;
    hide BindAll;
    hide MergeTo;
    hide SortCandidates;
    SortOrdered(x, cs);
    SameIdentities(x, cs, SortCandidates(x, cs));
  }

  /** AssembleEndpoints */
  method AssembleEndpoints(x: Rules, reg: Registry, cs: seq<Candidate>, bs: seq<Binding>) returns (out: Option<Result>)
    requires Sound(x)
    ensures Assembles(x, reg, cs, bs, out)
  {
    hide Sound;
    hide RegistryOk;
    hide CandidateOk;
    hide BindAll;
    hide UniqueIdentities;
    hide Assembles;
    hide Completes;
    var valid := Normalize(x, reg);
    var ok, verified := CheckCandidates(x, cs);
    if !valid || !ok {
      AssemblyFails(x, reg, cs, bs);
      return None;
    }
    OkIsUnique(x, reg);
    var bound := ApplyBindings(x, reg, bs, verified);
    if bound.None? {
      AssemblyFails(x, reg, cs, bs);
      return None;
    }
    BindAllUnique(x, reg, bs, verified);
    forall c | c in cs ensures x.identityOk(c.identity) {
      var i :| 0 <= i < |cs| && cs[i] == c;
      Verified(x, cs[i]);
    }
    out := Complete(x, bound.value, cs);
    CompletesAssembly(x, reg, cs, bs, bound.value, out);
  }

  lemma Verified(x: Rules, c: Candidate)
    requires CandidateOk(x, c)
    ensures x.identityOk(c.identity)
  {
  }
}
