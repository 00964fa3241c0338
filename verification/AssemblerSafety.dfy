/** What assembling keeps of the saved registry, when it cannot, and that it settles. */
module AssemblerSafety {
  import opened Assembler
  import opened AssemblerProofs

  // ------------------------------------------------------------------ derived IDs

  /** One of the fourteen IDs of a fingerprint is not taken. */
  predicate FreeId(x: Rules, fingerprint: string, taken: set<string>, from: nat)
    requires |x.digest(fingerprint)| == 64
  {
    exists i :: from <= i < 14 && DerivedId(x, fingerprint, i) !in taken
  }

  /** The derived ID is fresh exactly when one of the fourteen is. */
  lemma {:induction false} DeriveIsFresh(x: Rules, fingerprint: string, taken: set<string>, i: nat)
    requires i < 14 && |x.digest(fingerprint)| == 64
    ensures DeriveFrom(x, fingerprint, taken, i) !in taken <==> FreeId(x, fingerprint, taken, i)
    decreases 14 - i
  {
    hide DerivedId;
    if DerivedId(x, fingerprint, i) in taken && i < 13 {
      DeriveIsFresh(x, fingerprint, taken, i + 1);
    }
  }

  // ------------------------------------------------------------------ what a merge keeps

  /** The same pin, and every route still there with its kind. */
  ghost predicate Kept(e: Endpoint, e': Endpoint) {
    && e'.identity == e.identity
    && KeepsRoutes(e.routes, e'.routes)
  }

  ghost predicate KeepsRoutes(routes: map<string, Route>, routes': map<string, Route>) {
    forall id :: id in routes ==> id in routes' && routes'[id].kind == routes[id].kind
  }

  ghost predicate Keeps(reg: Registry, reg': Registry) {
    forall id :: id in reg.endpoints ==> id in reg'.endpoints && Kept(reg.endpoints[id], reg'.endpoints[id])
  }

  lemma {:induction false} AddRoutesKeeps(x: Rules, routes: map<string, Route>, c: Candidate, rs: seq<OfferedRoute>, n: nat)
    requires n <= |rs| && AddRoutes(x, routes, c, rs, n).Some?
    ensures KeepsRoutes(routes, AddRoutes(x, routes, c, rs, n).value)
  {
    if n > 0 { AddRoutesKeeps(x, routes, c, rs, n - 1); }
  }

  /** The endpoint one candidate leaves behind, whether it was found or is new. */
  lemma MergeParts(x: Rules, reg: Registry, c: Candidate) returns (e: Endpoint, e': Endpoint)
    requires Sound(x) && MergeCandidate(x, reg, c).Some?
    ensures var p := MergeCandidate(x, reg, c).value;
            && p.registry.endpoints == reg.endpoints[p.id := e']
            && p.registry.default == (if reg.default == "" then p.id else reg.default)
            && e'.identity == c.identity && KeepsRoutes(e.routes, e'.routes) && e.identity == c.identity
            && (Find(reg, c.identity).Some? ==> p.id == Find(reg, c.identity).value && e == reg.endpoints[p.id])
            && (Find(reg, c.identity).None? ==> p.id == DeriveFrom(x, c.identity.fingerprint, reg.endpoints.Keys, 0))
  {
    hide Sound;
    hide AddRoutes;
    hide SortRoutes;
    hide DeriveFrom;
    hide Conflicts;
    hide KeepsRoutes;
    var found := Find(reg, c.identity);
    e := if found.Some? then reg.endpoints[found.value] else NewEndpoint(c);
    var base := WithPolicy(if found.Some? then Relabelled(e, c) else e, c);
    var rs := SortRoutes(x, c.routes);
    AddRoutesKeeps(x, base.routes, c, rs, |rs|);
    e' := base.(routes := AddRoutes(x, base.routes, c, rs, |rs|).value);
  }

  /** Merging keeps every saved endpoint exactly when it found its own or a free ID for it. */
  lemma MergeKeepsIff(x: Rules, reg: Registry, c: Candidate)
    requires Sound(x) && MergeCandidate(x, reg, c).Some?
    ensures Keeps(reg, MergeCandidate(x, reg, c).value.registry)
            <==> Find(reg, c.identity).Some? || FreeId(x, c.identity.fingerprint, reg.endpoints.Keys, 0)
  {
    hide MergeCandidate;
    var e, e' := MergeParts(x, reg, c);
    var p := MergeCandidate(x, reg, c).value;
    DeriveIsFresh(x, c.identity.fingerprint, reg.endpoints.Keys, 0);
    if Find(reg, c.identity).None? && p.id in reg.endpoints {
      assert !Pinned(reg, p.id, c.identity);
      assert !Kept(reg.endpoints[p.id], p.registry.endpoints[p.id]);
    } else {
      forall id | id in reg.endpoints ensures id in p.registry.endpoints && Kept(reg.endpoints[id], p.registry.endpoints[id]) {
        if id != p.id { assert p.registry.endpoints[id] == reg.endpoints[id]; }
      }
    }
  }

  /** Every candidate found its endpoint or a free ID. */
  ghost predicate Roomy(x: Rules, reg: Registry, cs: seq<Candidate>, n: nat)
    requires Sound(x) && n <= |cs|
  {
    forall k :: 0 <= k < n && MergeTo(x, reg, cs, k).Some? ==> RoomFor(x, MergeTo(x, reg, cs, k).value.registry, cs[k])
  }

  ghost predicate RoomFor(x: Rules, reg: Registry, c: Candidate)
    requires Sound(x)
  {
    Find(reg, c.identity).Some? || FreeId(x, c.identity.fingerprint, reg.endpoints.Keys, 0)
  }

  lemma KeepsChain(a: Registry, b: Registry, c: Registry)
    requires Keeps(a, b) && Keeps(b, c)
    ensures Keeps(a, c)
  {
    forall id | id in a.endpoints ensures id in c.endpoints && Kept(a.endpoints[id], c.endpoints[id]) {
      assert Kept(a.endpoints[id], b.endpoints[id]) && Kept(b.endpoints[id], c.endpoints[id]);
    }
  }

  lemma {:induction false} MergeToKeeps(x: Rules, reg: Registry, cs: seq<Candidate>, n: nat)
    requires Sound(x) && n <= |cs| && MergeTo(x, reg, cs, n).Some? && Roomy(x, reg, cs, n)
    ensures Keeps(reg, MergeTo(x, reg, cs, n).value.registry)
  {
    hide MergeCandidate;
    hide Keeps;
    hide RoomFor;
    if n == 0 {
      assert Keeps(reg, reg) by { KeepsSelf(reg); }
    } else {
      Unfold(x, reg, cs, n);
      MergeToKeeps(x, reg, cs, n - 1);
      var m := MergeTo(x, reg, cs, n - 1).value;
      MergeKeepsIff(x, m.registry, cs[n - 1]);
      assert RoomFor(x, m.registry, cs[n - 1]);
      assert Keeps(m.registry, MergeCandidate(x, m.registry, cs[n - 1]).value.registry) by { RoomMeans(x, m.registry, cs[n - 1]); }
      KeepsChain(reg, m.registry, MergeTo(x, reg, cs, n).value.registry);
    }
  }

  lemma RoomMeans(x: Rules, reg: Registry, c: Candidate)
    requires Sound(x) && RoomFor(x, reg, c)
    ensures Find(reg, c.identity).Some? || FreeId(x, c.identity.fingerprint, reg.endpoints.Keys, 0)
  {
  }

  lemma KeepsSelf(reg: Registry)
    ensures Keeps(reg, reg)
  {
  }

  /** Every candidate's ID still names the endpoint with its identity once all are merged. */
  lemma {:induction false} IdsStay(x: Rules, reg: Registry, cs: seq<Candidate>, n: nat, p: nat)
    requires Sound(x) && p < n <= |cs| && MergeTo(x, reg, cs, n).Some? && Roomy(x, reg, cs, n) && UniqueIdentities(reg)
    requires forall i :: 0 <= i < |cs| ==> x.identityOk(cs[i].identity)
    ensures |MergeTo(x, reg, cs, n).value.ids| == n
    ensures Pinned(MergeTo(x, reg, cs, n).value.registry, MergeTo(x, reg, cs, n).value.ids[p], cs[p].identity)
  {
    hide MergeCandidate;
    hide UniqueIdentities;
    hide Keeps;
    hide RoomFor;
    hide Pinned;
    MergeToUnique(x, reg, cs, n);
    if p < n - 1 {
      Unfold(x, reg, cs, n);
      IdsStay(x, reg, cs, n - 1, p);
      var m := MergeTo(x, reg, cs, n - 1).value;
      assert RoomFor(x, m.registry, cs[n - 1]);
      hide MergeTo;
      hide Roomy;
      PinStays(x, m.registry, cs[n - 1], m.ids[p], cs[p].identity);
    }
  }

  lemma PinStays(x: Rules, reg: Registry, c: Candidate, id: string, identity: Identity)
    requires Sound(x) && MergeCandidate(x, reg, c).Some? && RoomFor(x, reg, c) && Pinned(reg, id, identity)
    ensures Pinned(MergeCandidate(x, reg, c).value.registry, id, identity)
  {
    hide MergeCandidate;
    MergeKeepsIff(x, reg, c);
    assert Kept(reg.endpoints[id], MergeCandidate(x, reg, c).value.registry.endpoints[id]);
  }

  // ------------------------------------------------------------------ bindings

  lemma {:induction false} InsertBindingContents(x: Rules, sorted: seq<Binding>, b: Binding)
    ensures multiset(InsertBinding(x, sorted, b)) == multiset(sorted) + multiset{b}
  {
    hide BindingLater;
    if sorted != [] && BindingLater(x, sorted[|sorted| - 1], b) {
      var init, last := sorted[..|sorted| - 1], sorted[|sorted| - 1];
      assert sorted == init + [last];
      InsertBindingContents(x, init, b);
    }
  }

  lemma {:induction false} SortBindingsContents(x: Rules, bs: seq<Binding>)
    ensures multiset(SortBindings(x, bs)) == multiset(bs)
  {
    if bs != [] {
      var init := bs[..|bs| - 1];
      assert bs == init + [bs[|bs| - 1]];
      SortBindingsContents(x, init);
      InsertBindingContents(x, SortBindings(x, init), bs[|bs| - 1]);
    }
  }

  lemma SameBindings(x: Rules, bs: seq<Binding>)
    ensures forall b :: b in SortBindings(x, bs) <==> b in bs
  {
    hide SortBindings;
    SortBindingsContents(x, bs);
    forall b ensures b in SortBindings(x, bs) <==> b in bs {
      assert b in SortBindings(x, bs) <==> b in multiset(SortBindings(x, bs));
      assert b in bs <==> b in multiset(bs);
    }
  }

  /** The identity after the bindings: the one confirmed for this endpoint, or the one saved. */
  ghost predicate Rightful(saved: Identity, bs: seq<Binding>, id: string, now: Identity) {
    && (saved.Empty() || now == saved)
    && (Binding(id, now) in bs || (now == saved && forall b :: b in bs ==> b.endpoint != id))
  }

  lemma OneRightful(saved: Identity, bs: seq<Binding>, id: string, a: Identity, b: Identity)
    requires Rightful(saved, bs, id, a) && Rightful(saved, bs, id, b)
    requires forall i, j :: 0 <= i < j < |bs| ==> bs[i].endpoint != bs[j].endpoint
    ensures a == b
  {
    if Binding(id, a) in bs && Binding(id, b) in bs {
      var i :| 0 <= i < |bs| && bs[i] == Binding(id, a);
      var j :| 0 <= j < |bs| && bs[j] == Binding(id, b);
      assert i == j;
    }
  }

  /** Identities are the rightful ones, and nothing else changed. */
  ghost predicate Bound(reg: Registry, reg': Registry, bs: seq<Binding>) {
    && reg'.endpoints.Keys == reg.endpoints.Keys && reg'.default == reg.default
    && (forall i, j :: 0 <= i < j < |bs| ==> bs[i].endpoint != bs[j].endpoint)
    && (forall b :: b in bs ==> b.endpoint in reg.endpoints)
    && forall id :: id in reg.endpoints ==> BoundOne(reg, reg', bs, id)
  }

  ghost predicate BoundOne(reg: Registry, reg': Registry, bs: seq<Binding>, id: string)
    requires id in reg.endpoints && id in reg'.endpoints
  {
    var e, e' := reg.endpoints[id], reg'.endpoints[id];
    e' == e.(identity := e'.identity) && Rightful(e.identity, bs, id, e'.identity)
  }

  lemma BindOneBound(x: Rules, reg: Registry, before: Registry, seen: seq<Binding>, b: Binding, verified: set<Identity>)
    requires Bound(reg, before, seen) && Bind(x, before, seen, b, verified).Some?
    ensures Bound(reg, Bind(x, before, seen, b, verified).value, seen + [b])
  {
    hide Conflicts;
    var after := Bind(x, before, seen, b, verified).value;
    assert after.endpoints.Keys == before.endpoints.Keys;
    forall id | id in reg.endpoints ensures BoundOne(reg, after, seen + [b], id) {
      assert BoundOne(reg, before, seen, id);
      RightfulNext(reg.endpoints[id].identity, seen, b, id, before.endpoints[id].identity, after.endpoints[id].identity);
    }
  }

  lemma RightfulNext(saved: Identity, seen: seq<Binding>, b: Binding, id: string, now: Identity, after: Identity)
    requires Rightful(saved, seen, id, now) && forall i :: 0 <= i < |seen| ==> seen[i].endpoint != b.endpoint
    requires if id == b.endpoint then (now.Empty() || now == after) && after == b.identity else after == now
    ensures Rightful(saved, seen + [b], id, after)
  {
    assert b in seen + [b];
    forall c | c in seen + [b] ensures c in seen || c == b {}
    if Binding(id, now) in seen { assert Binding(id, now) in seen + [b]; }
  }

  lemma {:induction false} BindToBound(x: Rules, reg: Registry, bs: seq<Binding>, verified: set<Identity>, n: nat)
    requires n <= |bs| && BindTo(x, reg, bs, verified, n).Some?
    ensures Bound(reg, BindTo(x, reg, bs, verified, n).value, bs[..n])
  {
    hide Bind;
    hide Bound;
    if n > 0 {
      BindToBound(x, reg, bs, verified, n - 1);
      BindOneBound(x, reg, BindTo(x, reg, bs, verified, n - 1).value, bs[..n - 1], bs[n - 1], verified);
      assert bs[..n] == bs[..n - 1] + [bs[n - 1]];
    } else {
      NothingBound(reg, bs[..0]);
    }
  }

  lemma NothingBound(reg: Registry, bs: seq<Binding>)
    requires bs == []
    ensures Bound(reg, reg, bs)
  {
  }

  /** The registry the candidates are merged into: saved, with the confirmed identities filled in. */
  lemma BoundParts(x: Rules, reg: Registry, bs: seq<Binding>, verified: set<Identity>) returns (ordered: seq<Binding>)
    requires BindAll(x, reg, bs, verified).Some?
    ensures Bound(reg, BindAll(x, reg, bs, verified).value, ordered) && forall b :: b in ordered <==> b in bs
  {
    hide RegistryOk;
    hide BindTo;
    hide Bound;
    ordered := SortBindings(x, bs);
    SameBindings(x, bs);
    hide SortBindings;
    BindToBound(x, reg, ordered, verified, |ordered|);
    assert ordered[..|ordered|] == ordered;
  }

  // ------------------------------------------------------------------ IDs that suffice

  /** The IDs taken and the identities known, before a candidate's turn. */
  datatype Census = Census(taken: set<string>, known: set<Identity>)

  ghost predicate Digests(x: Rules) {
    forall t :: |x.digest(t)| == 64
  }

  lemma SoundDigests(x: Rules)
    requires Sound(x)
    ensures Digests(x)
  {
  }

  /** A candidate of an unknown identity takes the first of its IDs that is free, if one is. */
  function CensusStep(x: Rules, now: Census, c: Candidate): Option<Census>
    requires Digests(x)
  {
    if c.identity in now.known then Some(now)
    else if FreeId(x, c.identity.fingerprint, now.taken, 0)
    then Some(Census(now.taken + {DeriveFrom(x, c.identity.fingerprint, now.taken, 0)}, now.known + {c.identity}))
    else None
  }

  function CensusAfter(x: Rules, before: Census, cs: seq<Candidate>, n: nat): Option<Census>
    requires n <= |cs| && Digests(x)
  {
    if n == 0 then Some(before)
    else
      match CensusAfter(x, before, cs, n - 1)
      case None => None
      case Some(now) => CensusStep(x, now, cs[n - 1])
  }

  /** Before a call: the saved IDs, the saved identities and those confirmed. */
  function CensusOf(reg: Registry, bs: seq<Binding>): Census {
    Census(reg.endpoints.Keys, (set id | id in reg.endpoints :: reg.endpoints[id].identity) + (set b | b in bs :: b.identity))
  }

  /** Every candidate of an unknown identity, in its turn, has one of its fourteen IDs left. */
  predicate IdsSuffice(x: Rules, reg: Registry, cs: seq<Candidate>, bs: seq<Binding>)
    requires Digests(x)
  {
    CensusAfter(x, CensusOf(reg, bs), SortCandidates(x, cs), |cs|).Some?
  }

  /** The census describes a registry, as far as identities that are not empty go. */
  ghost predicate Describes(now: Census, reg: Registry) {
    && now.taken == reg.endpoints.Keys
    && forall i: Identity :: !i.Empty() ==> (i in now.known <==> exists id :: Pinned(reg, id, i))
  }

  lemma StepDescribes(x: Rules, now: Census, reg: Registry, c: Candidate)
    requires Sound(x) && Digests(x) && Describes(now, reg) && MergeCandidate(x, reg, c).Some? && !c.identity.Empty()
    ensures CensusStep(x, now, c).Some? <==> RoomFor(x, reg, c)
    ensures RoomFor(x, reg, c) ==> Describes(CensusStep(x, now, c).value, MergeCandidate(x, reg, c).value.registry)
  {
    hide MergeCandidate;
    hide KeepsRoutes;
    var e, e' := MergeParts(x, reg, c);
    var p := MergeCandidate(x, reg, c).value;
    assert Find(reg, c.identity).Some? <==> c.identity in now.known;
    DeriveIsFresh(x, c.identity.fingerprint, reg.endpoints.Keys, 0);
    hide FreeId;
    hide DeriveFrom;
    if RoomFor(x, reg, c) {
      forall i: Identity | !i.Empty()
        ensures (exists id :: Pinned(p.registry, id, i)) <==> (exists id :: Pinned(reg, id, i)) || i == c.identity
      {
        if id :| Pinned(reg, id, i) { assert Pinned(p.registry, id, i); }
        if i == c.identity { assert Pinned(p.registry, p.id, i); }
        if id :| Pinned(p.registry, id, i) { assert id == p.id || Pinned(reg, id, i); }
      }
    }
  }

  /** The census follows the merge for as long as every candidate has room, and no longer. */
  lemma {:induction false} CensusFollows(x: Rules, before: Census, reg: Registry, cs: seq<Candidate>, n: nat)
    requires Sound(x) && Digests(x) && n <= |cs| && MergeTo(x, reg, cs, n).Some? && Describes(before, reg)
    requires forall i :: 0 <= i < |cs| ==> !cs[i].identity.Empty()
    ensures CensusAfter(x, before, cs, n).Some? <==> Roomy(x, reg, cs, n)
    ensures Roomy(x, reg, cs, n) ==> Describes(CensusAfter(x, before, cs, n).value, MergeTo(x, reg, cs, n).value.registry)
  {
    hide Sound;
    hide Digests;
    hide Describes;
    hide CensusStep;
    hide CensusAfter;
    hide RoomFor;
    hide Roomy;
    hide MergeTo;
    hide MergeCandidate;
    if n == 0 {
      CensusStart(x, before, reg, cs);
    } else {
      Unfold(x, reg, cs, n);
      CensusFollows(x, before, reg, cs, n - 1);
      RoomyNext(x, reg, cs, n);
      CensusNext(x, before, cs, n);
      if Roomy(x, reg, cs, n - 1) {
        StepDescribes(x, CensusAfter(x, before, cs, n - 1).value, MergeTo(x, reg, cs, n - 1).value.registry, cs[n - 1]);
      }
    }
  }

  lemma CensusStart(x: Rules, before: Census, reg: Registry, cs: seq<Candidate>)
    requires Sound(x) && Digests(x)
    ensures CensusAfter(x, before, cs, 0) == Some(before) && Roomy(x, reg, cs, 0)
    ensures MergeTo(x, reg, cs, 0) == Some(Merged(reg, [], []))
  {
  }

  lemma CensusNext(x: Rules, before: Census, cs: seq<Candidate>, n: nat)
    requires Digests(x) && 0 < n <= |cs|
    ensures CensusAfter(x, before, cs, n) ==
            match CensusAfter(x, before, cs, n - 1)
            case None => None
            case Some(now) => CensusStep(x, now, cs[n - 1])
  {
  }

  lemma RoomyNext(x: Rules, reg: Registry, cs: seq<Candidate>, n: nat)
    requires Sound(x) && 0 < n <= |cs| && MergeTo(x, reg, cs, n - 1).Some?
    ensures Roomy(x, reg, cs, n) <==> Roomy(x, reg, cs, n - 1) && RoomFor(x, MergeTo(x, reg, cs, n - 1).value.registry, cs[n - 1])
  {
    hide RoomFor;
    hide MergeTo;
  }

  lemma BoundDescribed(reg: Registry, bound: Registry, bs: seq<Binding>, ordered: seq<Binding>)
    requires Bound(reg, bound, ordered) && forall b :: b in ordered <==> b in bs
    ensures Describes(CensusOf(reg, bs), bound)
  {
    var now := CensusOf(reg, bs);
    forall i: Identity | !i.Empty() ensures i in now.known <==> exists id :: Pinned(bound, id, i) {
      if id :| Pinned(bound, id, i) {
        assert BoundOne(reg, bound, ordered, id);
        if Binding(id, i) in ordered { assert Binding(id, i) in bs; }
      }
      if i in now.known {
        if id :| id in reg.endpoints && reg.endpoints[id].identity == i {
          assert BoundOne(reg, bound, ordered, id);
          assert Pinned(bound, id, i);
        } else {
          var b :| b in bs && b.identity == i;
          BindingHeld(reg, bound, ordered, b);
          assert Pinned(bound, b.endpoint, i);
        }
      }
    }
  }

  lemma BindingHeld(reg: Registry, bound: Registry, bs: seq<Binding>, b: Binding)
    requires Bound(reg, bound, bs) && b in bs
    ensures Pinned(bound, b.endpoint, b.identity)
  {
    assert BoundOne(reg, bound, bs, b.endpoint);
    var now := bound.endpoints[b.endpoint].identity;
    var i :| 0 <= i < |bs| && bs[i] == b;
    var j :| 0 <= j < |bs| && bs[j] == Binding(b.endpoint, now);
    assert i == j;
  }

  // ------------------------------------------------------------------ what an overwrite leaves behind

  /** Every endpoint is as it was pinned before, or was placed by a candidate that resolved to it. */
  ghost predicate Accounted(reg: Registry, m: Merged, cs: seq<Candidate>, id: string)
    requires id in m.registry.endpoints
  {
    Pinned(reg, id, m.registry.endpoints[id].identity)
    || exists i :: 0 <= i < |m.ids| <= |cs| && m.ids[i] == id && cs[i].identity == m.registry.endpoints[id].identity
  }

  lemma {:induction false} AllAccounted(x: Rules, reg: Registry, cs: seq<Candidate>, n: nat, id: string)
    requires Sound(x) && n <= |cs| && MergeTo(x, reg, cs, n).Some? && id in MergeTo(x, reg, cs, n).value.registry.endpoints
    ensures |MergeTo(x, reg, cs, n).value.ids| == n && Accounted(reg, MergeTo(x, reg, cs, n).value, cs, id)
  {
    hide MergeCandidate;
    hide KeepsRoutes;
    if n > 0 {
      Unfold(x, reg, cs, n);
      var m, m' := MergeTo(x, reg, cs, n - 1).value, MergeTo(x, reg, cs, n).value;
      var e, e' := MergeParts(x, m.registry, cs[n - 1]);
      hide MergeTo;
      MergeIds(x, reg, cs, n);
      if id == m'.ids[n - 1] {
        assert cs[n - 1].identity == m'.registry.endpoints[id].identity;
      } else {
        AllAccounted(x, reg, cs, n - 1, id);
        if i :| 0 <= i < |m.ids| && m.ids[i] == id && cs[i].identity == m.registry.endpoints[id].identity {
          assert m'.ids[i] == id;
        }
      }
    }
  }

  lemma {:induction false} MergeIds(x: Rules, reg: Registry, cs: seq<Candidate>, n: nat)
    requires Sound(x) && n <= |cs| && MergeTo(x, reg, cs, n).Some?
    ensures |MergeTo(x, reg, cs, n).value.ids| == n
    ensures reg.endpoints.Keys <= MergeTo(x, reg, cs, n).value.registry.endpoints.Keys
    ensures forall i :: 0 <= i < n ==> MergeTo(x, reg, cs, n).value.ids[i] in MergeTo(x, reg, cs, n).value.registry.endpoints
  {
    hide MergeCandidate;
    hide KeepsRoutes;
    if n > 0 {
      Unfold(x, reg, cs, n);
      MergeIds(x, reg, cs, n - 1);
      var e, e' := MergeParts(x, MergeTo(x, reg, cs, n - 1).value.registry, cs[n - 1]);
    }
  }

  /** Pins are as before the merge, and every candidate's ID has its identity. */
  ghost predicate Intact(reg: Registry, m: Merged, cs: seq<Candidate>)
  {
    && (forall id :: id in reg.endpoints ==> Pinned(m.registry, id, reg.endpoints[id].identity))
    && (forall i :: 0 <= i < |m.ids| <= |cs| ==> Pinned(m.registry, m.ids[i], cs[i].identity))
  }

  lemma OverwriteShows(x: Rules, reg: Registry, cs: seq<Candidate>, n: nat)
    requires Sound(x) && 0 < n <= |cs| && MergeTo(x, reg, cs, n).Some? && MergeTo(x, reg, cs, n - 1).Some?
    requires !RoomFor(x, MergeTo(x, reg, cs, n - 1).value.registry, cs[n - 1])
    ensures !Intact(reg, MergeTo(x, reg, cs, n).value, cs)
  {
    hide MergeCandidate;
    Unfold(x, reg, cs, n);
    MergeIds(x, reg, cs, n);
    var m, m' := MergeTo(x, reg, cs, n - 1).value, MergeTo(x, reg, cs, n).value;
    hide MergeTo;
    var id := DerivedId(x, cs[n - 1].identity.fingerprint, 13);
    TakenIdsOverwrite(x, m.registry, cs[n - 1]);
    AllAccounted(x, reg, cs, n - 1, id);
    if i :| 0 <= i < |m.ids| <= |cs| && m.ids[i] == id && cs[i].identity == m.registry.endpoints[id].identity {
      assert m'.ids[i] == id && !Pinned(m'.registry, m'.ids[i], cs[i].identity);
    } else {
      assert id in reg.endpoints && !Pinned(m'.registry, id, reg.endpoints[id].identity);
    }
  }

  /** A pin lost before is not found again by a merge that has room. */
  lemma LossStays(x: Rules, reg: Registry, cs: seq<Candidate>, n: nat)
    requires Sound(x) && 0 < n <= |cs| && MergeTo(x, reg, cs, n).Some? && MergeTo(x, reg, cs, n - 1).Some?
    requires RoomFor(x, MergeTo(x, reg, cs, n - 1).value.registry, cs[n - 1]) && Intact(reg, MergeTo(x, reg, cs, n).value, cs)
    ensures Intact(reg, MergeTo(x, reg, cs, n - 1).value, cs)
  {
    hide MergeCandidate;
    Unfold(x, reg, cs, n);
    MergeIds(x, reg, cs, n);
    MergeIds(x, reg, cs, n - 1);
    var m, m' := MergeTo(x, reg, cs, n - 1).value, MergeTo(x, reg, cs, n).value;
    hide MergeTo;
    MergeKeepsIff(x, m.registry, cs[n - 1]);
    hide KeepsRoutes;
    forall id | id in m.registry.endpoints ensures m'.registry.endpoints[id].identity == m.registry.endpoints[id].identity {
      assert Kept(m.registry.endpoints[id], m'.registry.endpoints[id]);
    }
    forall i | 0 <= i < |m.ids| ensures Pinned(m.registry, m.ids[i], cs[i].identity) {
      assert m'.ids[i] == m.ids[i];
    }
  }

  /** All pins hold at the end exactly when every candidate had room. */
  lemma {:induction false} IntactIffRoomy(x: Rules, reg: Registry, cs: seq<Candidate>, n: nat)
    requires Sound(x) && n <= |cs| && MergeTo(x, reg, cs, n).Some? && UniqueIdentities(reg)
    requires forall i :: 0 <= i < |cs| ==> x.identityOk(cs[i].identity)
    ensures Intact(reg, MergeTo(x, reg, cs, n).value, cs) <==> Roomy(x, reg, cs, n)
  {
    hide MergeTo;
    hide Roomy;
    hide Intact;
    hide RoomFor;
    hide UniqueIdentities;
    hide Sound;
    if Roomy(x, reg, cs, n) {
      RoomyIsIntact(x, reg, cs, n);
    } else {
      NoTurnYet(x, reg, cs, n);
      Unfold(x, reg, cs, n);
      RoomyNext(x, reg, cs, n);
      if RoomFor(x, MergeTo(x, reg, cs, n - 1).value.registry, cs[n - 1]) {
        IntactIffRoomy(x, reg, cs, n - 1);
        if Intact(reg, MergeTo(x, reg, cs, n).value, cs) { LossStays(x, reg, cs, n); }
      } else {
        OverwriteShows(x, reg, cs, n);
      }
    }
  }

  lemma NoTurnYet(x: Rules, reg: Registry, cs: seq<Candidate>, n: nat)
    requires Sound(x) && n <= |cs| && !Roomy(x, reg, cs, n)
    ensures n > 0
  {
    hide MergeTo;
    hide RoomFor;
  }

  lemma RoomyIsIntact(x: Rules, reg: Registry, cs: seq<Candidate>, n: nat)
    requires Sound(x) && n <= |cs| && MergeTo(x, reg, cs, n).Some? && UniqueIdentities(reg)
    requires (forall i :: 0 <= i < |cs| ==> x.identityOk(cs[i].identity)) && Roomy(x, reg, cs, n)
    ensures Intact(reg, MergeTo(x, reg, cs, n).value, cs)
  {
    hide RoomFor;
    hide UniqueIdentities;
    hide Sound;
    hide MergeTo;
    var m := MergeTo(x, reg, cs, n).value;
    MergeIds(x, reg, cs, n);
    MergeToKeeps(x, reg, cs, n);
    forall i | 0 <= i < |m.ids| ensures Pinned(m.registry, m.ids[i], cs[i].identity) { IdsStay(x, reg, cs, n, i); }
    hide Roomy;
    forall id | id in reg.endpoints ensures Pinned(m.registry, id, reg.endpoints[id].identity) {
      assert Kept(reg.endpoints[id], m.registry.endpoints[id]);
    }
  }

  // ------------------------------------------------------------------ the theorem

  /** Saved before, and now: its rightful identity, and every route still there with its kind. */
  ghost predicate Survives(reg: Registry, reg': Registry, bs: seq<Binding>, id: string)
    requires id in reg.endpoints
  {
    && id in reg'.endpoints
    && Rightful(reg.endpoints[id].identity, bs, id, reg'.endpoints[id].identity)
    && KeepsRoutes(reg.endpoints[id].routes, reg'.endpoints[id].routes)
  }

  /** Every saved endpoint survives, and every candidate is resolved to an endpoint with its identity. */
  ghost predicate NothingLost(reg: Registry, cs: seq<Candidate>, bs: seq<Binding>, out: Result) {
    && (forall id :: id in reg.endpoints ==> Survives(reg, out.registry, bs, id))
    && (forall i :: 0 <= i < |cs| == |out.resolved| ==> Pinned(out.registry, out.resolved[i], cs[i].identity))
  }

  /**
   A successful assembly yields a valid registry with unique devices and fingerprints; it loses
   and re-pins nothing exactly when the derived IDs suffice, which the caller can tell beforehand.
   */
  lemma AssemblySafe(x: Rules, reg: Registry, cs: seq<Candidate>, bs: seq<Binding>, out: Option<Result>)
    requires Sound(x) && Assembles(x, reg, cs, bs, out) && out.Some?
    ensures UniqueIdentities(out.value.registry) && RegistryOk(x, out.value.registry) && |out.value.resolved| == |cs|
    ensures NothingLost(reg, cs, bs, out.value) <==> IdsSuffice(x, reg, cs, bs)
  {
    SoundDigests(x);
    hide Sound;
    hide Digests;
    hide SortCandidates;
    hide CensusAfter;
    hide RegistryOk;
    hide UniqueIdentities;
    hide MergeTo;
    hide AssembleSorted;
    hide NothingLost;
    hide Intact;
    hide Roomy;
    hide Bound;
    var sorted := SortCandidates(x, cs);
    var bound := Assembled(x, reg, sorted, bs);
    OkIsUnique(x, out.value.registry);
    var ordered := BoundParts(x, reg, bs, Identities(sorted));
    var whole := MergeTo(x, bound, sorted, |sorted|).value;
    ResolvedAlike(x, reg, cs, bs, out.value, bound, whole);
    assert out.value.registry == whole.registry;
    hide Assembles;
    NoneEmpty(x, sorted);
    BoundDescribed(reg, bound, bs, ordered);
    CensusFollows(x, CensusOf(reg, bs), bound, sorted, |sorted|);
    IntactIffRoomy(x, bound, sorted, |sorted|);
    if Roomy(x, bound, sorted, |sorted|) { MergeToKeeps(x, bound, sorted, |sorted|); }
    LostIffBroken(reg, cs, bs, out.value, bound, whole, sorted, ordered);
  }

  lemma LostIffBroken(reg: Registry, cs: seq<Candidate>, bs: seq<Binding>, out: Result, bound: Registry, whole: Merged,
                      sorted: seq<Candidate>, ordered: seq<Binding>)
    requires Bound(reg, bound, ordered) && (forall b :: b in ordered <==> b in bs) && out.registry == whole.registry
    requires |cs| == |out.resolved| == |sorted| == |whole.ids|
    requires (forall i :: 0 <= i < |cs| ==> Pinned(out.registry, out.resolved[i], cs[i].identity))
             <==> (forall p :: 0 <= p < |cs| ==> Pinned(out.registry, whole.ids[p], sorted[p].identity))
    requires Intact(bound, whole, sorted) ==> Keeps(bound, whole.registry)
    ensures NothingLost(reg, cs, bs, out) <==> Intact(bound, whole, sorted)
  {
    SurvivorsAlike(reg, bound, whole.registry, bs, ordered);
    hide Bound;
    hide Survives;
    hide Pinned;
    hide Keeps;
  }

  lemma NoneEmpty(x: Rules, cs: seq<Candidate>)
    requires Sound(x) && forall i :: 0 <= i < |cs| ==> x.identityOk(cs[i].identity)
    ensures forall i :: 0 <= i < |cs| ==> !cs[i].identity.Empty()
  {
  }

  /** What holds of the candidates' IDs in order holds of them in the order they were given. */
  lemma ResolvedAlike(x: Rules, reg: Registry, cs: seq<Candidate>, bs: seq<Binding>, out: Result, bound: Registry, whole: Merged)
    requires Sound(x) && Assembles(x, reg, cs, bs, Some(out)) && UniqueIdentities(bound)
    requires var sorted := SortCandidates(x, cs);
             && MergeTo(x, bound, sorted, |sorted|) == Some(whole)
             && (forall i :: 0 <= i < |sorted| ==> x.identityOk(sorted[i].identity))
             && AssembleSorted(x, reg, sorted, bs).Some? && AssembleSorted(x, reg, sorted, bs).value.ids == whole.ids
    ensures |whole.ids| == |cs| == |out.resolved|
    ensures (forall i :: 0 <= i < |cs| ==> Pinned(out.registry, out.resolved[i], cs[i].identity))
            <==> (forall p :: 0 <= p < |cs| ==> Pinned(out.registry, whole.ids[p], SortCandidates(x, cs)[p].identity))
  {
    hide AssembleSorted;
    hide MergeTo;
    hide UniqueIdentities;
    var sorted := SortCandidates(x, cs);
    SortOrdered(x, cs);
    hide SortCandidates;
    SameChecks(x, cs, sorted);
    MergeIds(x, bound, sorted, |sorted|);
    forall i, p | 0 <= i < |cs| && 0 <= p < |cs| && cs[i] == sorted[p] ensures out.resolved[i] == whole.ids[p] {
      assert Resolves(sorted, whole.ids, cs[i], out.resolved[i]);
      OneId(x, bound, sorted, whole, p, out.resolved[i]);
    }
    hide Sound;
    hide Ordered;
    hide Assembles;
    PinnedAlike(out.registry, cs, out.resolved, sorted, whole.ids);
  }

  lemma OneId(x: Rules, bound: Registry, sorted: seq<Candidate>, whole: Merged, p: nat, id: string)
    requires Sound(x) && Ordered(x, sorted) && UniqueIdentities(bound) && MergeTo(x, bound, sorted, |sorted|) == Some(whole)
    requires (forall i :: 0 <= i < |sorted| ==> x.identityOk(sorted[i].identity)) && |whole.ids| == |sorted|
    requires p < |sorted| && Resolves(sorted, whole.ids, sorted[p], id)
    ensures whole.ids[p] == id
  {
    hide Sound;
    hide Ordered;
    hide UniqueIdentities;
    hide MergeTo;
    var q :| 0 <= q < |sorted| && sorted[q] == sorted[p] && whole.ids[q] == id;
    if p <= q { EqualIds(x, bound, sorted, p, q); } else { EqualIds(x, bound, sorted, q, p); }
  }

  lemma PinnedAlike(reg: Registry, cs: seq<Candidate>, ids: seq<string>, cs': seq<Candidate>, ids': seq<string>)
    requires |cs| == |ids| == |cs'| == |ids'| && forall c :: c in cs <==> c in cs'
    requires forall i, p :: 0 <= i < |cs| && 0 <= p < |cs| && cs[i] == cs'[p] ==> ids[i] == ids'[p]
    ensures (forall i :: 0 <= i < |cs| ==> Pinned(reg, ids[i], cs[i].identity))
            <==> (forall p :: 0 <= p < |cs| ==> Pinned(reg, ids'[p], cs'[p].identity))
  {
    hide Pinned;
    forall i | 0 <= i < |cs| ensures exists p :: 0 <= p < |cs| && cs[i] == cs'[p] { assert cs[i] in cs'; }
    forall p | 0 <= p < |cs| ensures exists i :: 0 <= i < |cs| && cs[i] == cs'[p] { assert cs'[p] in cs; }
  }

  lemma SurvivorsAlike(reg: Registry, bound: Registry, reg': Registry, bs: seq<Binding>, ordered: seq<Binding>)
    requires Bound(reg, bound, ordered) && forall b :: b in ordered <==> b in bs
    ensures Keeps(bound, reg') ==> forall id :: id in reg.endpoints ==> Survives(reg, reg', bs, id)
    ensures (forall id :: id in reg.endpoints ==> Survives(reg, reg', bs, id)) ==>
              forall id :: id in bound.endpoints ==> Pinned(reg', id, bound.endpoints[id].identity)
  {
    hide KeepsRoutes;
    hide Rightful;
    forall id, i | id in reg.endpoints ensures Rightful(reg.endpoints[id].identity, ordered, id, i)
                                               <==> Rightful(reg.endpoints[id].identity, bs, id, i) {
      SameRightful(reg.endpoints[id].identity, bs, ordered, id, i);
    }
    if Keeps(bound, reg') {
      forall id | id in reg.endpoints ensures Survives(reg, reg', bs, id) {
        assert BoundOne(reg, bound, ordered, id) && Kept(bound.endpoints[id], reg'.endpoints[id]);
      }
    }
    if forall id :: id in reg.endpoints ==> Survives(reg, reg', bs, id) {
      forall id | id in bound.endpoints ensures Pinned(reg', id, bound.endpoints[id].identity) {
        assert BoundOne(reg, bound, ordered, id) && Survives(reg, reg', bs, id);
        OneRightful(reg.endpoints[id].identity, ordered, id, bound.endpoints[id].identity, reg'.endpoints[id].identity);
      }
    }
  }

  lemma SameRightful(saved: Identity, bs: seq<Binding>, ordered: seq<Binding>, id: string, now: Identity)
    requires forall b :: b in ordered <==> b in bs
    ensures Rightful(saved, ordered, id, now) <==> Rightful(saved, bs, id, now)
  {
  }

  // ------------------------------------------------------------------ the overwritten endpoint

  /** With all fourteen IDs of a fingerprint taken, a new daemon replaces the endpoint at the last one. */
  lemma TakenIdsOverwrite(x: Rules, reg: Registry, c: Candidate)
    requires Sound(x) && MergeCandidate(x, reg, c).Some?
    requires Find(reg, c.identity).None? && !FreeId(x, c.identity.fingerprint, reg.endpoints.Keys, 0)
    ensures var id := DerivedId(x, c.identity.fingerprint, 13);
            && id in reg.endpoints && reg.endpoints[id].identity != c.identity
            && Pinned(MergeCandidate(x, reg, c).value.registry, id, c.identity)
  {
    hide MergeCandidate;
    var e, e' := MergeParts(x, reg, c);
    LastResort(x, c.identity.fingerprint, reg.endpoints.Keys, 0);
    assert !Pinned(reg, DerivedId(x, c.identity.fingerprint, 13), c.identity);
  }

  lemma {:induction false} LastResort(x: Rules, fingerprint: string, taken: set<string>, i: nat)
    requires i < 14 && |x.digest(fingerprint)| == 64 && !FreeId(x, fingerprint, taken, i)
    ensures DeriveFrom(x, fingerprint, taken, i) == DerivedId(x, fingerprint, 13)
    ensures DerivedId(x, fingerprint, 13) in taken
    decreases 14 - i
  {
    hide DerivedId;
    if i < 13 { LastResort(x, fingerprint, taken, i + 1); }
  }

  /** A registry whose endpoints, all without identity, hold the fourteen IDs of a fingerprint. */
  ghost function Crowded(x: Rules, fingerprint: string, saved: Endpoint): Registry
    requires |x.digest(fingerprint)| == 64
  {
    var ids := set i | 0 <= i < 14 :: DerivedId(x, fingerprint, i);
    Registry(DerivedId(x, fingerprint, 0), map id | id in ids :: saved)
  }

  /** The crowded registry and a candidate with one route are in order. */
  ghost predicate CrowdedCase(x: Rules, saved: Endpoint, c: Candidate, r: OfferedRoute)
    requires Sound(x)
  {
    && EndpointOk(x, saved) && saved.identity.Empty() && saved.enabled
    && CandidateOk(x, c) && c.routes == [r] && RouteAdmissible(x, c, r) && x.routeOk(NewRoute(map[], c, r), c.identity)
    && x.selectionOk(0) && CredentialsOk(x, c.credentials) && Dedupe(SortCredentials(x, c.credentials)).Some?
    && forall i :: 0 <= i < 14 ==> x.idOk(DerivedId(x, c.identity.fingerprint, i))
  }

  /** The whole assembly accepts a valid registry and a valid candidate, and a saved endpoint is gone. */
  lemma CrowdedLosesEndpoint(x: Rules, saved: Endpoint, c: Candidate, r: OfferedRoute) returns (out: Result)
    requires Sound(x) && CrowdedCase(x, saved, c, r)
    ensures var reg, id := Crowded(x, c.identity.fingerprint, saved), DerivedId(x, c.identity.fingerprint, 13);
            && RegistryOk(x, reg) && Assembles(x, reg, [c], [], Some(out))
            && out.registry.endpoints.Keys == reg.endpoints.Keys
            && id in reg.endpoints && reg.endpoints[id] == saved
            && Pinned(out.registry, id, c.identity) && !Survives(reg, out.registry, [], id)
  {
    assert |x.digest(c.identity.fingerprint)| == 64;
    hide Sound;
    hide CrowdedCase;
    hide RegistryOk;
    hide MergeCandidate;
    hide CandidateOk;
    hide CredentialsOk;
    hide Assembles;
    hide Crowded;
    hide DerivedId;
    hide Survives;
    CrowdedFacts(x, saved, c, r);
    var reg, id := Crowded(x, c.identity.fingerprint, saved), DerivedId(x, c.identity.fingerprint, 13);
    var e := CrowdedMerge(x, saved, c, r);
    CrowdedResult(x, saved, c, r, e);
    out := Result(Registry(reg.default, reg.endpoints[id := e]), [id], Dedupe(SortCredentials(x, c.credentials)).value);
    AssemblesOne(x, reg, c, Placed(out.registry, id), out);
    Repinned(reg, out.registry, id, c.identity);
  }

  lemma Repinned(reg: Registry, reg': Registry, id: string, identity: Identity)
    requires id in reg.endpoints && reg.endpoints[id].identity != identity && Pinned(reg', id, identity)
    ensures !Survives(reg, reg', [], id)
  {
  }

  lemma CrowdedFacts(x: Rules, saved: Endpoint, c: Candidate, r: OfferedRoute)
    requires Sound(x) && CrowdedCase(x, saved, c, r)
    ensures var reg, id := Crowded(x, c.identity.fingerprint, saved), DerivedId(x, c.identity.fingerprint, 13);
            RegistryOk(x, reg) && id in reg.endpoints && reg.endpoints[id] == saved && saved.identity != c.identity
    ensures CandidateOk(x, c) && CredentialsOk(x, c.credentials) && Dedupe(SortCredentials(x, c.credentials)).Some?
  {
    Verifies(x, c);
    CrowdedOk(x, c.identity.fingerprint, saved);
    hide RegistryOk;
    hide CandidateOk;
    hide DerivedId;
  }

  lemma AssemblesOne(x: Rules, reg: Registry, c: Candidate, p: Placed, out: Result)
    requires Sound(x) && RegistryOk(x, reg) && CandidateOk(x, c) && CredentialsOk(x, c.credentials)
    requires MergeCandidate(x, reg, c) == Some(p) && RegistryOk(x, p.registry)
    requires Dedupe(SortCredentials(x, c.credentials)) == Some(out.credentials) && out.registry == p.registry && out.resolved == [p.id]
    ensures Assembles(x, reg, [c], [], Some(out))
  {
    hide Sound;
    hide RegistryOk;
    hide MergeCandidate;
    hide CandidateOk;
    hide CredentialsOk;
    hide Dedupe;
    hide SortCredentials;
    OneSorted(x, c);
    hide SortCandidates;
    MergeOne(x, reg, c);
    hide MergeTo;
    NoBindings(x, reg, [], Identities([c]));
    hide BindAll;
    assert AssembleSorted(x, reg, [c], []) == Some(Merged(p.registry, [p.id], out.credentials));
    assert Resolves([c], [p.id], c, p.id) by { assert [c][0] == c && [p.id][0] == p.id; }
  }

  lemma Verifies(x: Rules, c: Candidate)
    requires Sound(x) && CandidateOk(x, c)
    ensures x.identityOk(c.identity) && !c.identity.Empty()
  {
  }

  lemma CrowdedOk(x: Rules, fp: string, saved: Endpoint)
    requires Sound(x) && EndpointOk(x, saved) && saved.identity.Empty() && saved.enabled
    requires forall i :: 0 <= i < 14 ==> x.idOk(DerivedId(x, fp, i))
    ensures var reg := Crowded(x, fp, saved);
            && RegistryOk(x, reg) && !FreeId(x, fp, reg.endpoints.Keys, 0)
            && forall i :: 0 <= i < 14 ==> DerivedId(x, fp, i) in reg.endpoints
  {
    hide DerivedId;
    hide EndpointOk;
    var reg := Crowded(x, fp, saved);
    forall i | 0 <= i < 14 ensures DerivedId(x, fp, i) in reg.endpoints {}
  }

  /** The candidate finds neither its identity nor a free ID, and is stored at the last one. */
  lemma CrowdedMerge(x: Rules, saved: Endpoint, c: Candidate, r: OfferedRoute) returns (e: Endpoint)
    requires Sound(x) && CrowdedCase(x, saved, c, r)
    ensures var reg, id := Crowded(x, c.identity.fingerprint, saved), DerivedId(x, c.identity.fingerprint, 13);
            MergeCandidate(x, reg, c) == Some(Placed(Registry(reg.default, reg.endpoints[id := e]), id))
    ensures e.identity == c.identity && e.enabled && x.selectionOk(e.selection)
    ensures e.routes == map[r.id := NewRoute(map[], c, r)]
  {
    var fp, id := c.identity.fingerprint, DerivedId(x, c.identity.fingerprint, 13);
    var reg := Crowded(x, fp, saved);
    CrowdedOk(x, fp, saved);
    LastResort(x, fp, reg.endpoints.Keys, 0);
    Verifies(x, c);
    hide EndpointOk;
    assert forall k :: k in reg.endpoints ==> reg.endpoints[k].identity.Empty();
    assert reg.default != "";
    assert Find(reg, c.identity).None? && !Conflicts(reg, c.identity);
    OneRoute(x, c, r);
    e := WithPolicy(NewEndpoint(c), c).(routes := map[r.id := NewRoute(map[], c, r)]);
  }

  lemma CrowdedResult(x: Rules, saved: Endpoint, c: Candidate, r: OfferedRoute, e: Endpoint)
    requires Sound(x) && CrowdedCase(x, saved, c, r)
    requires e.identity == c.identity && e.enabled && x.selectionOk(e.selection)
    requires e.routes == map[r.id := NewRoute(map[], c, r)]
    ensures var reg, id := Crowded(x, c.identity.fingerprint, saved), DerivedId(x, c.identity.fingerprint, 13);
            RegistryOk(x, Registry(reg.default, reg.endpoints[id := e]))
  {
    NewEndpointOk(x, c, r, e);
    hide EndpointOk;
    var fp, id := c.identity.fingerprint, DerivedId(x, c.identity.fingerprint, 13);
    var reg := Crowded(x, fp, saved);
    CrowdedOk(x, fp, saved);
    hide DerivedId;
    hide CandidateOk;
    hide RouteAdmissible;
    assert forall k :: k in reg.endpoints ==> reg.endpoints[k] == saved;
  }

  lemma NewEndpointOk(x: Rules, c: Candidate, r: OfferedRoute, e: Endpoint)
    requires CandidateOk(x, c) && RouteAdmissible(x, c, r) && x.routeOk(NewRoute(map[], c, r), c.identity)
    requires e.identity == c.identity && x.selectionOk(e.selection) && e.routes == map[r.id := NewRoute(map[], c, r)]
    ensures EndpointOk(x, e)
  {
    hide NewRoute;
    assert r.id in e.routes;
    assert e.routes.Keys == {r.id};
    assert forall k :: k in e.routes <==> k == r.id;
  }

  lemma OneRoute(x: Rules, c: Candidate, r: OfferedRoute)
    requires c.routes == [r] && RouteAdmissible(x, c, r)
    ensures SortRoutes(x, c.routes) == [r]
    ensures AddRoutes(x, map[], c, [r], 1) == Some(map[r.id := NewRoute(map[], c, r)])
  {
    hide RouteAdmissible;
    assert c.routes[..0] == [] && SortRoutes(x, []) == [];
    assert SortRoutes(x, c.routes) == InsertRoute(x, [], r) == [r];
    OneAdded(x, c, [r], 1);
  }

  lemma OneAdded(x: Rules, c: Candidate, rs: seq<OfferedRoute>, n: nat)
    requires |rs| == 1 == n && RouteAdmissible(x, c, rs[0])
    ensures AddRoutes(x, map[], c, rs, n) == Some(map[rs[0].id := NewRoute(map[], c, rs[0])])
  {
    hide NewRoute;
    assert AddRoutes(x, map[], c, rs, n - 1) == Some(map[]);
  }

  // ------------------------------------------------------------------ assembling twice

  /** Offering the same route again changes nothing it already settled. */
  ghost predicate Settled(routes: map<string, Route>, c: Candidate, r: OfferedRoute) {
    && r.id in routes && routes[r.id].kind == r.kind
    && MergeRoute(routes[r.id], Incoming(c, r), OwnsPolicy(c), Forces(c)) == routes[r.id]
  }

  lemma MergeAbsorbs(e: Route, a: Route, b: Route, applyPolicy: bool, force: bool)
    requires a.source == b.source && a.policySource == b.policySource
    ensures MergeRoute(MergeRoute(e, a, applyPolicy, force), b, applyPolicy, force) == MergeRoute(e, b, applyPolicy, force)
  {
  }

  lemma NewSettles(routes: map<string, Route>, c: Candidate, r: OfferedRoute)
    requires !OwnsPolicy(c) ==> r.policy == NO_POLICY
    ensures Settled(routes[r.id := NewRoute(routes, c, r)], c, r)
  {
  }

  /** The last of the first n offered routes with this ID. */
  function LastOf(rs: seq<OfferedRoute>, id: string, n: nat): (r: Option<nat>)
    requires n <= |rs|
    ensures r.Some? ==> r.value < n && rs[r.value].id == id
    ensures r.None? ==> forall i :: 0 <= i < n ==> rs[i].id != id
  {
    if n == 0 then None else if rs[n - 1].id == id then Some(n - 1) else LastOf(rs, id, n - 1)
  }

  lemma {:induction false} FirstPass(x: Rules, routes: map<string, Route>, c: Candidate, rs: seq<OfferedRoute>, n: nat, id: string)
    requires n <= |rs| && AddRoutes(x, routes, c, rs, n).Some?
    requires !OwnsPolicy(c) ==> forall i :: 0 <= i < |rs| ==> rs[i].policy == NO_POLICY
    ensures LastOf(rs, id, n).Some? ==> Settled(AddRoutes(x, routes, c, rs, n).value, c, rs[LastOf(rs, id, n).value])
    ensures forall i :: 0 <= i < n ==> RouteAdmissible(x, c, rs[i])
  {
    if n > 0 {
      hide MergeRoute;
      FirstPass(x, routes, c, rs, n - 1, id);
      var before, r := AddRoutes(x, routes, c, rs, n - 1).value, rs[n - 1];
      if r.id == id {
        if r.id in before {
          MergeAbsorbs(before[r.id], Incoming(c, r), Incoming(c, r), OwnsPolicy(c), Forces(c));
          MergeKind(before[r.id], Incoming(c, r), OwnsPolicy(c), Forces(c));
        } else {
          NewSettles(before, c, r);
        }
      }
    }
  }

  lemma MergeKind(e: Route, r: Route, applyPolicy: bool, force: bool)
    requires e.kind == r.kind
    ensures MergeRoute(e, r, applyPolicy, force).kind == e.kind
  {
  }

  /** What the second pass makes of a route, entry by entry. */
  function Again(routes: map<string, Route>, c: Candidate, rs: seq<OfferedRoute>, n: nat, id: string): Route
    requires n <= |rs| && id in routes
  {
    var last := LastOf(rs, id, n);
    if last.None? then routes[id] else MergeRoute(routes[id], Incoming(c, rs[last.value]), OwnsPolicy(c), Forces(c))
  }

  ghost predicate Repeats(routes: map<string, Route>, c: Candidate, rs: seq<OfferedRoute>, n: nat, out: map<string, Route>)
    requires n <= |rs|
  {
    out.Keys == routes.Keys && forall id :: id in routes ==> out[id] == Again(routes, c, rs, n, id)
  }

  lemma {:induction false} SecondPass(x: Rules, routes: map<string, Route>, c: Candidate, rs: seq<OfferedRoute>, n: nat)
    requires n <= |rs|
    requires forall i :: 0 <= i < |rs| ==>
               RouteAdmissible(x, c, rs[i]) && rs[i].id in routes && routes[rs[i].id].kind == rs[i].kind
    ensures AddRoutes(x, routes, c, rs, n).Some? && Repeats(routes, c, rs, n, AddRoutes(x, routes, c, rs, n).value)
  {
    if n == 0 {
      NothingRepeated(routes, c, rs);
    } else {
      hide Repeats;
      hide RouteAdmissible;
      SecondPass(x, routes, c, rs, n - 1);
      SecondStep(x, routes, c, rs, n, AddRoutes(x, routes, c, rs, n - 1).value);
    }
  }

  lemma NothingRepeated(routes: map<string, Route>, c: Candidate, rs: seq<OfferedRoute>)
    ensures Repeats(routes, c, rs, 0, routes)
  {
  }

  lemma SecondStep(x: Rules, routes: map<string, Route>, c: Candidate, rs: seq<OfferedRoute>, n: nat, before: map<string, Route>)
    requires 0 < n <= |rs| && Repeats(routes, c, rs, n - 1, before) && RouteAdmissible(x, c, rs[n - 1])
    requires forall i :: 0 <= i < |rs| ==> rs[i].id in routes && routes[rs[i].id].kind == rs[i].kind
    ensures AddRoute(x, before, c, rs[n - 1]).Some?
    ensures Repeats(routes, c, rs, n, AddRoute(x, before, c, rs[n - 1]).value)
  {
    hide MergeRoute;
    hide RouteAdmissible;
    var r := rs[n - 1];
    assert before[r.id] == Again(routes, c, rs, n - 1, r.id);
    var last := LastOf(rs, r.id, n - 1);
    if last.Some? {
      MergeAbsorbs(routes[r.id], Incoming(c, rs[last.value]), Incoming(c, r), OwnsPolicy(c), Forces(c));
      MergeKind(routes[r.id], Incoming(c, rs[last.value]), OwnsPolicy(c), Forces(c));
    }
  }

  /** Routes merged once are not changed by merging them again. */
  lemma RoutesSettle(x: Rules, routes: map<string, Route>, c: Candidate, rs: seq<OfferedRoute>)
    requires AddRoutes(x, routes, c, rs, |rs|).Some?
    requires !OwnsPolicy(c) ==> forall i :: 0 <= i < |rs| ==> rs[i].policy == NO_POLICY
    ensures var once := AddRoutes(x, routes, c, rs, |rs|).value; AddRoutes(x, once, c, rs, |rs|) == Some(once)
  {
    hide AddRoutes;
    hide MergeRoute;
    var once := AddRoutes(x, routes, c, rs, |rs|).value;
    forall i | 0 <= i < |rs|
      ensures RouteAdmissible(x, c, rs[i]) && rs[i].id in once && once[rs[i].id].kind == rs[i].kind
    {
      FirstPass(x, routes, c, rs, |rs|, rs[i].id);
      SameKind(x, routes, c, rs, |rs|, i);
    }
    SecondPass(x, once, c, rs, |rs|);
    var twice := AddRoutes(x, once, c, rs, |rs|).value;
    forall id | id in once ensures twice[id] == once[id] {
      FirstPass(x, routes, c, rs, |rs|, id);
    }
    assert twice == once;
  }

  lemma {:induction false} SameKind(x: Rules, routes: map<string, Route>, c: Candidate, rs: seq<OfferedRoute>, n: nat, i: nat)
    requires i < n <= |rs| && AddRoutes(x, routes, c, rs, n).Some?
    ensures rs[i].id in AddRoutes(x, routes, c, rs, n).value
    ensures AddRoutes(x, routes, c, rs, n).value[rs[i].id].kind == rs[i].kind
  {
    if i < n - 1 { SameKind(x, routes, c, rs, n - 1, i); }
  }

  lemma {:induction false} InsertedRoutes(x: Rules, sorted: seq<OfferedRoute>, r: OfferedRoute)
    ensures forall t :: t in InsertRoute(x, sorted, r) ==> t in sorted || t == r
  {
    if sorted != [] && x.textKey(sorted[|sorted| - 1].id) > x.textKey(r.id) {
      InsertedRoutes(x, sorted[..|sorted| - 1], r);
    }
  }

  lemma {:induction false} SortedRoutes(x: Rules, rs: seq<OfferedRoute>)
    ensures forall t :: t in SortRoutes(x, rs) ==> t in rs
  {
    if rs != [] {
      var init := rs[..|rs| - 1];
      SortedRoutes(x, init);
      InsertedRoutes(x, SortRoutes(x, init), rs[|rs| - 1]);
    }
  }

  lemma PlainRoutes(x: Rules, c: Candidate)
    requires CandidateOk(x, c)
    ensures var rs := SortRoutes(x, c.routes); !OwnsPolicy(c) ==> forall i :: 0 <= i < |rs| ==> rs[i].policy == NO_POLICY
  {
    hide SortRoutes;
    SortedRoutes(x, c.routes);
    var rs := SortRoutes(x, c.routes);
    if !OwnsPolicy(c) {
      forall i | 0 <= i < |rs| ensures rs[i].policy == NO_POLICY { assert rs[i] in rs; }
    }
  }

  /** What the candidate's policy says about the endpoint, before its routes. */
  function Prepared(e: Endpoint, c: Candidate): Endpoint {
    WithPolicy(Relabelled(e, c), c)
  }

  lemma PreparedSettles(e: Endpoint, c: Candidate, routes: map<string, Route>)
    ensures Prepared(Prepared(e, c).(routes := routes), c) == Prepared(e, c).(routes := routes)
    ensures Prepared(WithPolicy(NewEndpoint(c), c).(routes := routes), c) == WithPolicy(NewEndpoint(c), c).(routes := routes)
  {
  }

  /** The merged endpoint, explicitly. */
  lemma MergedEndpoint(x: Rules, reg: Registry, c: Candidate) returns (base: Endpoint, routes: map<string, Route>)
    requires Sound(x) && MergeCandidate(x, reg, c).Some?
    ensures var p := MergeCandidate(x, reg, c).value;
            && base == (if Find(reg, c.identity).Some? then Prepared(reg.endpoints[Find(reg, c.identity).value], c)
                        else WithPolicy(NewEndpoint(c), c))
            && AddRoutes(x, base.routes, c, SortRoutes(x, c.routes), |SortRoutes(x, c.routes)|) == Some(routes)
            && p.registry.endpoints == reg.endpoints[p.id := base.(routes := routes)]
  {
    hide AddRoutes;
    hide SortRoutes;
    hide DeriveFrom;
    hide Conflicts;
    var found := Find(reg, c.identity);
    base := if found.Some? then Prepared(reg.endpoints[found.value], c) else WithPolicy(NewEndpoint(c), c);
    routes := AddRoutes(x, base.routes, c, SortRoutes(x, c.routes), |SortRoutes(x, c.routes)|).value;
  }

  lemma NoConflictAtHome(reg: Registry, id: string, identity: Identity)
    requires UniqueIdentities(reg) && Pinned(reg, id, identity) && !identity.Empty()
    ensures !Conflicts(reg, identity)
  {
  }

  /** Merging a candidate into what it was merged into already changes nothing. */
  lemma MergeSettles(x: Rules, reg: Registry, c: Candidate)
    requires Sound(x) && RegistryOk(x, reg) && CandidateOk(x, c) && MergeCandidate(x, reg, c).Some?
    ensures var p := MergeCandidate(x, reg, c).value;
            p.registry.default != "" && MergeCandidate(x, p.registry, c) == Some(p)
  {
    var p := MergeCandidate(x, reg, c).value;
    OkIsUnique(x, reg);
    MergePins(x, reg, c);
    NoConflictAtHome(p.registry, p.id, c.identity);
    HasDefault(x, reg, c);
    var base, routes := MergedEndpoint(x, reg, c);
    hide RegistryOk;
    PlainRoutes(x, c);
    PreparedSettles(if Find(reg, c.identity).Some? then reg.endpoints[Find(reg, c.identity).value] else base, c, routes);
    var rs := SortRoutes(x, c.routes);
    RoutesSettle(x, base.routes, c, rs);
    var found := Find(p.registry, c.identity);
    assert found.Some?;
    OnePin(p.registry, c.identity, p.id, found.value);
    hide UniqueIdentities;
    hide AddRoutes;
    hide SortRoutes;
    assert p.registry.endpoints[p.id] == base.(routes := routes);
    assert p.registry.endpoints[p.id := base.(routes := routes)] == p.registry.endpoints;
  }

  lemma HasDefault(x: Rules, reg: Registry, c: Candidate)
    requires Sound(x) && RegistryOk(x, reg) && MergeCandidate(x, reg, c).Some?
    ensures MergeCandidate(x, reg, c).value.registry.default != ""
  {
    hide EndpointOk;
    hide UniqueIdentities;
    hide MergeCandidate;
    var e, e' := MergeParts(x, reg, c);
    if reg.default == "" && Find(reg, c.identity).None? { DerivedNonEmpty(x, c.identity.fingerprint, reg.endpoints.Keys, 0); }
  }

  lemma {:induction false} DerivedNonEmpty(x: Rules, fingerprint: string, taken: set<string>, i: nat)
    requires i < 14 && |x.digest(fingerprint)| == 64
    ensures DeriveFrom(x, fingerprint, taken, i) != ""
    decreases 14 - i
  {
    if i < 13 { DerivedNonEmpty(x, fingerprint, taken, i + 1); }
  }

  /** Assembling one candidate into its own result gives that result again. */
  lemma AssemblyIdempotent(x: Rules, reg: Registry, c: Candidate, bs: seq<Binding>, out: Option<Result>)
    requires Sound(x) && Assembles(x, reg, [c], bs, out) && out.Some?
    ensures Assembles(x, out.value.registry, [c], [], out)
  {
    hide MergeCandidate;
    hide RegistryOk;
    hide Dedupe;
    hide SortCredentials;
    hide CandidateOk;
    OneSorted(x, c);
    var bound := Assembled(x, reg, [c], bs);
    MergeOne(x, bound, c);
    MergeSettles(x, bound, c);
    var p := MergeCandidate(x, bound, c).value;
    MergeOne(x, p.registry, c);
    hide MergeTo;
    NoBindings(x, p.registry, [], Identities([c]));
    var m := AssembleSorted(x, reg, [c], bs).value;
    assert AssembleSorted(x, p.registry, [c], []) == Some(m);
  }

  lemma OneSorted(x: Rules, c: Candidate)
    ensures SortCandidates(x, [c]) == [c]
  {
    assert [c][..0] == [];
    assert SortCandidates(x, []) == [];
  }

  lemma MergeOne(x: Rules, reg: Registry, c: Candidate)
    requires Sound(x)
    ensures MergeTo(x, reg, [c], 1) ==
            if MergeCandidate(x, reg, c).Some? && CredentialsOk(x, c.credentials)
            then Some(Merged(MergeCandidate(x, reg, c).value.registry, [MergeCandidate(x, reg, c).value.id], c.credentials))
            else None
  {
    MergeFirst(x, reg, c, [c], 1);
  }

  lemma MergeFirst(x: Rules, reg: Registry, c: Candidate, cs: seq<Candidate>, n: nat)
    requires Sound(x) && n == 1 && |cs| == 1 && cs[0] == c
    ensures MergeTo(x, reg, cs, n) ==
            if MergeCandidate(x, reg, c).Some? && CredentialsOk(x, c.credentials)
            then Some(Merged(MergeCandidate(x, reg, c).value.registry, [MergeCandidate(x, reg, c).value.id], c.credentials))
            else None
  {
    hide MergeCandidate;
    hide CredentialsOk;
    assert MergeTo(x, reg, cs, n - 1) == Some(Merged(reg, [], []));
    assert cs[n - 1] == c;
    assert [] + c.credentials == c.credentials;
    assert forall id: string :: [] + [id] == [id];
  }
}
