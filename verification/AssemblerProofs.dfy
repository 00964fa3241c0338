/** What assembling guarantees: order independence, safety of what was saved, idempotence. */
module AssemblerProofs {
  import opened Assembler

  // ------------------------------------------------------------------ sorting is canonical

  ghost predicate Ordered(x: Rules, cs: seq<Candidate>) {
    forall i, j :: 0 <= i < j < |cs| ==> !Later(x, cs[i], cs[j])
  }

  lemma LaterTotal(x: Rules, a: Candidate, b: Candidate)
    requires Sound(x) && !Later(x, a, b) && !Later(x, b, a)
    ensures a == b
  {
  }

  lemma LaterChain(x: Rules, a: Candidate, b: Candidate, c: Candidate)
    requires Sound(x) && !Later(x, a, b) && !Later(x, b, c)
    ensures !Later(x, a, c)
  {
  }

  lemma LaterOneWay(x: Rules, a: Candidate, b: Candidate)
    requires Later(x, a, b)
    ensures !Later(x, b, a)
  {
  }

  lemma {:induction false} InsertContents(x: Rules, sorted: seq<Candidate>, c: Candidate)
    ensures multiset(InsertCandidate(x, sorted, c)) == multiset(sorted) + multiset{c}
  {
    hide Later;
    if sorted != [] && Later(x, sorted[|sorted| - 1], c) {
      var init, last := sorted[..|sorted| - 1], sorted[|sorted| - 1];
      assert sorted == init + [last];
      InsertContents(x, init, c);
    }
  }

  lemma {:induction false} InsertOrdered(x: Rules, sorted: seq<Candidate>, c: Candidate)
    requires Sound(x) && Ordered(x, sorted)
    ensures Ordered(x, InsertCandidate(x, sorted, c))
  {
    hide Sound;
    hide Later;
    if sorted != [] && Later(x, sorted[|sorted| - 1], c) {
      var init, last := sorted[..|sorted| - 1], sorted[|sorted| - 1];
      InsertOrdered(x, init, c);
      var rest := InsertCandidate(x, init, c);
      LaterOneWay(x, last, c);
      AllBefore(x, init, c, rest, last);
    } else if sorted != [] {
      forall i | 0 <= i < |sorted| ensures !Later(x, sorted[i], c) {
        if i < |sorted| - 1 { LaterChain(x, sorted[i], sorted[|sorted| - 1], c); }
      }
    }
  }

  lemma AllBefore(x: Rules, init: seq<Candidate>, c: Candidate, rest: seq<Candidate>, last: Candidate)
    requires rest == InsertCandidate(x, init, c) && !Later(x, c, last)
    requires forall i :: 0 <= i < |init| ==> !Later(x, init[i], last)
    ensures forall i :: 0 <= i < |rest| ==> !Later(x, rest[i], last)
  {
    hide Later;
    hide InsertCandidate;
    InsertContents(x, init, c);
    forall i | 0 <= i < |rest| ensures !Later(x, rest[i], last) {
      assert rest[i] in multiset(rest);
      assert rest[i] == c || rest[i] in multiset(init);
    }
  }

  lemma {:induction false} SortOrdered(x: Rules, cs: seq<Candidate>)
    requires Sound(x)
    ensures Ordered(x, SortCandidates(x, cs)) && multiset(SortCandidates(x, cs)) == multiset(cs)
  {
    if cs != [] {
      var init := cs[..|cs| - 1];
      assert cs == init + [cs[|cs| - 1]];
      hide Sound;
      hide Ordered;
      SortOrdered(x, init);
      InsertOrdered(x, SortCandidates(x, init), cs[|cs| - 1]);
      InsertContents(x, SortCandidates(x, init), cs[|cs| - 1]);
    }
  }

  /** There is one way to order a collection of candidates. */
  lemma {:induction false} OneOrder(x: Rules, a: seq<Candidate>, b: seq<Candidate>)
    requires Sound(x) && Ordered(x, a) && Ordered(x, b) && multiset(a) == multiset(b)
    ensures a == b
  {
    hide Sound;
    hide Later;
    hide Ordered;
    assert |a| == |multiset(a)| == |multiset(b)| == |b|;
    if a != [] {
      var la, lb := a[|a| - 1], b[|b| - 1];
      LastIsLast(x, a, b);
      DropLast(x, a);
      DropLast(x, b);
      OneOrder(x, a[..|a| - 1], b[..|b| - 1]);
      assert a == a[..|a| - 1] + [la] && b == b[..|b| - 1] + [lb];
    }
  }

  lemma DropLast(x: Rules, a: seq<Candidate>)
    requires a != [] && Ordered(x, a)
    ensures Ordered(x, a[..|a| - 1])
    ensures multiset(a[..|a| - 1]) == multiset(a) - multiset{a[|a| - 1]}
  {
    assert a == a[..|a| - 1] + [a[|a| - 1]];
  }

  lemma LastIsLast(x: Rules, a: seq<Candidate>, b: seq<Candidate>)
    requires Sound(x) && Ordered(x, a) && Ordered(x, b) && multiset(a) == multiset(b) && a != [] && b != []
    ensures a[|a| - 1] == b[|b| - 1]
  {
    hide Later;
    hide Sound;
    var la, lb := a[|a| - 1], b[|b| - 1];
    assert la in multiset(b) && lb in multiset(a);
    var i :| 0 <= i < |a| && a[i] == lb;
    var j :| 0 <= j < |b| && b[j] == la;
    if la != lb {
      assert !Later(x, lb, la) && !Later(x, la, lb);
      LaterTotal(x, la, lb);
    }
  }

  lemma SortSame(x: Rules, a: seq<Candidate>, b: seq<Candidate>)
    requires Sound(x) && multiset(a) == multiset(b)
    ensures SortCandidates(x, a) == SortCandidates(x, b)
  {
    SortOrdered(x, a);
    SortOrdered(x, b);
    OneOrder(x, SortCandidates(x, a), SortCandidates(x, b));
  }

  // ------------------------------------------------------------------ one candidate

  lemma MergePins(x: Rules, reg: Registry, c: Candidate)
    requires Sound(x) && UniqueIdentities(reg) && x.identityOk(c.identity) && MergeCandidate(x, reg, c).Some?
    ensures var p := MergeCandidate(x, reg, c).value;
            UniqueIdentities(p.registry) && Pinned(p.registry, p.id, c.identity)
  {
    hide AddRoutes;
    hide SortRoutes;
    hide DeriveFrom;
    var p := MergeCandidate(x, reg, c).value;
    var found := Find(reg, c.identity);
    forall a | a in reg.endpoints && a != p.id && !reg.endpoints[a].identity.Empty()
      ensures reg.endpoints[a].identity.deviceId != c.identity.deviceId
      ensures reg.endpoints[a].identity.fingerprint != c.identity.fingerprint
    {
      assert !Clashes(reg.endpoints[a].identity, c.identity);
      assert found.None? ==> !Pinned(reg, a, c.identity);
    }
  }

  lemma OnePin(reg: Registry, identity: Identity, a: string, b: string)
    requires UniqueIdentities(reg) && !identity.Empty() && Pinned(reg, a, identity) && Pinned(reg, b, identity)
    ensures a == b
  {
  }

  lemma {:induction false} MergeToUnique(x: Rules, reg: Registry, cs: seq<Candidate>, n: nat)
    requires Sound(x) && n <= |cs| && UniqueIdentities(reg) && MergeTo(x, reg, cs, n).Some?
    requires forall i :: 0 <= i < |cs| ==> x.identityOk(cs[i].identity)
    ensures UniqueIdentities(MergeTo(x, reg, cs, n).value.registry) && |MergeTo(x, reg, cs, n).value.ids| == n
    ensures n > 0 ==> Pinned(MergeTo(x, reg, cs, n).value.registry, MergeTo(x, reg, cs, n).value.ids[n - 1], cs[n - 1].identity)
  {
    hide UniqueIdentities;
    hide MergeCandidate;
    if n > 0 {
      MergeToUnique(x, reg, cs, n - 1);
      var m := MergeTo(x, reg, cs, n - 1).value;
      MergePins(x, m.registry, cs[n - 1]);
    }
  }

  lemma {:induction false} MergePrefix(x: Rules, reg: Registry, cs: seq<Candidate>, n: nat, k: nat)
    requires Sound(x) && k <= n <= |cs| && MergeTo(x, reg, cs, n).Some?
    ensures MergeTo(x, reg, cs, k).Some? && MergeTo(x, reg, cs, k).value.ids <= MergeTo(x, reg, cs, n).value.ids
  {
    hide MergeCandidate;
    if k < n { MergePrefix(x, reg, cs, n - 1, k); }
  }

  /** Neighbours with the same identity end up at the same endpoint. */
  lemma SameNeighbours(x: Rules, reg: Registry, cs: seq<Candidate>, n: nat)
    requires Sound(x) && n + 2 <= |cs| && UniqueIdentities(reg) && MergeTo(x, reg, cs, n + 2).Some?
    requires forall i :: 0 <= i < |cs| ==> x.identityOk(cs[i].identity)
    requires cs[n].identity == cs[n + 1].identity
    ensures |MergeTo(x, reg, cs, n + 2).value.ids| == n + 2
    ensures MergeTo(x, reg, cs, n + 2).value.ids[n] == MergeTo(x, reg, cs, n + 2).value.ids[n + 1]
  {
    hide MergeTo;
    MergePrefix(x, reg, cs, n + 2, n + 1);
    MergeToUnique(x, reg, cs, n + 1);
    MergeToUnique(x, reg, cs, n + 2);
    var m := MergeTo(x, reg, cs, n + 1).value;
    Unfold(x, reg, cs, n + 2);
    Revisits(x, m.registry, cs[n + 1], m.ids[n]);
  }

  lemma Unfold(x: Rules, reg: Registry, cs: seq<Candidate>, n: nat)
    requires Sound(x) && 0 < n <= |cs| && MergeTo(x, reg, cs, n).Some?
    ensures var m := MergeTo(x, reg, cs, n - 1);
            && m.Some? && MergeCandidate(x, m.value.registry, cs[n - 1]).Some?
            && MergeTo(x, reg, cs, n).value.ids == m.value.ids + [MergeCandidate(x, m.value.registry, cs[n - 1]).value.id]
            && MergeTo(x, reg, cs, n).value.registry == MergeCandidate(x, m.value.registry, cs[n - 1]).value.registry
  {
    hide MergeCandidate;
  }

  lemma Revisits(x: Rules, reg: Registry, c: Candidate, id: string)
    requires Sound(x) && UniqueIdentities(reg) && x.identityOk(c.identity) && Pinned(reg, id, c.identity)
    requires MergeCandidate(x, reg, c).Some?
    ensures Find(reg, c.identity) == Some(id) && MergeCandidate(x, reg, c).value.id == id
  {
    hide AddRoutes;
    hide SortRoutes;
    hide DeriveFrom;
    var found := Find(reg, c.identity);
    assert found.Some?;
    OnePin(reg, c.identity, id, found.value);
  }

  /** Equal candidates are resolved to the same endpoint, whatever their places. */
  lemma {:induction false} EqualIds(x: Rules, reg: Registry, cs: seq<Candidate>, p: nat, q: nat)
    requires Sound(x) && Ordered(x, cs) && UniqueIdentities(reg) && MergeTo(x, reg, cs, |cs|).Some?
    requires forall i :: 0 <= i < |cs| ==> x.identityOk(cs[i].identity)
    requires p <= q < |cs| && cs[p] == cs[q]
    ensures |MergeTo(x, reg, cs, |cs|).value.ids| == |cs|
    ensures MergeTo(x, reg, cs, |cs|).value.ids[p] == MergeTo(x, reg, cs, |cs|).value.ids[q]
    decreases q - p
  {
    hide MergeTo;
    hide UniqueIdentities;
    MergeToUnique(x, reg, cs, |cs|);
    if p < q {
      if p < q - 1 { LaterTotal(x, cs[q - 1], cs[q]); }
      EqualIds(x, reg, cs, p, q - 1);
      MergePrefix(x, reg, cs, |cs|, q + 1);
      SameNeighbours(x, reg, cs, q - 1);
    }
  }

  // ------------------------------------------------------------------ order independence

  lemma SameChecks(x: Rules, a: seq<Candidate>, b: seq<Candidate>)
    requires multiset(a) == multiset(b)
    ensures forall c :: c in a <==> c in b
  {
    forall c ensures c in a <==> c in b {
      assert c in a <==> c in multiset(a);
      assert c in b <==> c in multiset(b);
    }
  }

  /** Permuting the candidates permutes the resolved IDs and changes nothing else. */
  lemma OrderIndependent(x: Rules, reg: Registry, a: seq<Candidate>, b: seq<Candidate>, bs: seq<Binding>,
                         outA: Option<Result>, outB: Option<Result>)
    requires Sound(x) && multiset(a) == multiset(b)
    requires Assembles(x, reg, a, bs, outA) && Assembles(x, reg, b, bs, outB)
    ensures outA.Some? == outB.Some?
    ensures outA.Some? ==>
              && outA.value.registry == outB.value.registry && outA.value.credentials == outB.value.credentials
              && |outA.value.resolved| == |a| && |outB.value.resolved| == |b|
              && forall i, j :: 0 <= i < |a| && 0 <= j < |b| && a[i] == b[j] ==> outA.value.resolved[i] == outB.value.resolved[j]
  {
    SortSame(x, a, b);
    if outA.Some? {
      hide Sound;
      hide AssembleSorted;
      hide SortCandidates;
      var sorted := SortCandidates(x, a);
      forall i, j | 0 <= i < |a| && 0 <= j < |b| && a[i] == b[j]
        ensures outA.value.resolved[i] == outB.value.resolved[j]
      {
        SameResolved(x, reg, a, bs, a[i], outA.value.resolved[i], outB.value.resolved[j]);
      }
    }
  }

  lemma SameResolved(x: Rules, reg: Registry, a: seq<Candidate>, bs: seq<Binding>, c: Candidate, id: string, id': string)
    requires Sound(x) && AssembleSorted(x, reg, SortCandidates(x, a), bs).Some?
    requires var ids := AssembleSorted(x, reg, SortCandidates(x, a), bs).value.ids;
             Resolves(SortCandidates(x, a), ids, c, id) && Resolves(SortCandidates(x, a), ids, c, id')
    ensures id == id'
  {
    hide Sound;
    hide AssembleSorted;
    hide RegistryOk;
    hide UniqueIdentities;
    hide MergeTo;
    hide BindAll;
    hide CandidateOk;
    hide SortCandidates;
    hide Ordered;
    var sorted := SortCandidates(x, a);
    var m := AssembleSorted(x, reg, sorted, bs).value;
    SortOrdered(x, a);
    var bound := Assembled(x, reg, sorted, bs);
    var p :| 0 <= p < |sorted| && sorted[p] == c && m.ids[p] == id;
    var q :| 0 <= q < |sorted| && sorted[q] == c && m.ids[q] == id';
    if p <= q { EqualIds(x, bound, sorted, p, q); } else { EqualIds(x, bound, sorted, q, p); }
  }

  /** The registry the candidates were merged into, and what is known of it. */
  lemma Assembled(x: Rules, reg: Registry, cs: seq<Candidate>, bs: seq<Binding>) returns (bound: Registry)
    requires Sound(x) && AssembleSorted(x, reg, cs, bs).Some?
    ensures BindAll(x, reg, bs, Identities(cs)) == Some(bound) && RegistryOk(x, reg)
    ensures RegistryOk(x, bound) && UniqueIdentities(bound)
    ensures forall i :: 0 <= i < |cs| ==> CandidateOk(x, cs[i]) && x.identityOk(cs[i].identity)
    ensures MergeTo(x, bound, cs, |cs|).Some?
    ensures AssembleSorted(x, reg, cs, bs).value.ids == MergeTo(x, bound, cs, |cs|).value.ids
    ensures AssembleSorted(x, reg, cs, bs).value.registry == MergeTo(x, bound, cs, |cs|).value.registry
    ensures RegistryOk(x, AssembleSorted(x, reg, cs, bs).value.registry)
  {
    hide MergeTo;
    hide BindTo;
    bound := BindAll(x, reg, bs, Identities(cs)).value;
    NoBindings(x, reg, bs, Identities(cs));
    hide EndpointOk;
    assert UniqueIdentities(bound) by { OkIsUnique(x, bound); }
  }

  lemma NoBindings(x: Rules, reg: Registry, bs: seq<Binding>, verified: set<Identity>)
    ensures bs == [] ==> BindAll(x, reg, bs, verified) == Some(reg)
  {
  }

  lemma OkIsUnique(x: Rules, reg: Registry)
    requires RegistryOk(x, reg)
    ensures UniqueIdentities(reg)
  {
    hide EndpointOk;
  }
}
