/**
 Rules that meet what the merge relies on: texts and candidates numbered one by one through a
 pairing function. With them the assembly that loses a saved endpoint is a concrete one.
 */
module AssemblerWitness {
  import opened Assembler
  import opened AssemblerSafety

  // ------------------------------------------------------------------ numbering

  /** Every pair has a positive number of its own: 2^a * (2b + 1). */
  function Pair(a: nat, b: nat): nat {
    if a == 0 then 2 * b + 1 else 2 * Pair(a - 1, b)
  }

  lemma {:induction false} PairOne(a: nat, b: nat, c: nat, d: nat)
    ensures Pair(a, b) > 0
    ensures Pair(a, b) == Pair(c, d) ==> a == c && b == d
  {
    if a > 0 { PairOne(a - 1, b, if c > 0 then c - 1 else c, d); }
  }

  ghost predicate Injective<T(!new)>(key: T -> nat) {
    forall a, b :: key(a) == key(b) ==> a == b
  }

  function List<T>(key: T -> nat, s: seq<T>): nat {
    if s == [] then 0 else Pair(key(s[|s| - 1]), List(key, s[..|s| - 1]))
  }

  lemma {:induction false} ListOne<T(!new)>(key: T -> nat, s: seq<T>, t: seq<T>)
    requires Injective(key) && List(key, s) == List(key, t)
    ensures s == t
  {
    if s != [] { PairOne(key(s[|s| - 1]), List(key, s[..|s| - 1]), 0, 0); }
    if t != [] { PairOne(key(t[|t| - 1]), List(key, t[..|t| - 1]), 0, 0); }
    if s != [] && t != [] {
      var a, b := s[|s| - 1], t[|t| - 1];
      PairOne(key(a), List(key, s[..|s| - 1]), key(b), List(key, t[..|t| - 1]));
      assert a == b;
      ListOne(key, s[..|s| - 1], t[..|t| - 1]);
      assert s == s[..|s| - 1] + [a] && t == t[..|t| - 1] + [b];
    }
  }

  function Text(s: string): nat {
    List((c: char) => c as int, s)
  }

  lemma TextOne(s: string, t: string)
    requires Text(s) == Text(t)
    ensures s == t
  {
    ListOne((c: char) => c as int, s, t);
  }

  function Whole(i: int): nat {
    if i >= 0 then 2 * i else -2 * i - 1
  }

  function Flag(b: bool): nat {
    if b then 1 else 0
  }

  function OfPolicy(p: RoutePolicy): nat {
    Pair(Flag(p.enabled), Pair(Flag(p.manualOnly), if p.priority.None? then 0 else 1 + p.priority.value))
  }

  lemma PolicyOne(p: RoutePolicy, q: RoutePolicy)
    requires OfPolicy(p) == OfPolicy(q)
    ensures p == q
  {
    var pp, qq := if p.priority.None? then 0 else 1 + p.priority.value, if q.priority.None? then 0 else 1 + q.priority.value;
    PairOne(Flag(p.enabled), Pair(Flag(p.manualOnly), pp), Flag(q.enabled), Pair(Flag(q.manualOnly), qq));
    PairOne(Flag(p.manualOnly), pp, Flag(q.manualOnly), qq);
  }

  function OfKind(k: Kind): nat {
    match k
    case LocalUnix => 0
    case SshWebRtc => 1
    case DirectWebRtc => 2
    case ManagedWebRtc => 3
  }

  function OfSourceOption(s: Option<Source>): nat {
    if s.None? then 0 else 1 + Rank(s.value)
  }

  function OfRouteTail(r: OfferedRoute): nat {
    Pair(OfSourceOption(r.policySource), Pair(OfPolicy(r.policy), Whole(r.config)))
  }

  function OfRoute(r: OfferedRoute): nat {
    Pair(Text(r.id), Pair(OfKind(r.kind), Pair(OfSourceOption(r.source), OfRouteTail(r))))
  }

  lemma RouteTailOne(r: OfferedRoute, t: OfferedRoute)
    requires OfRouteTail(r) == OfRouteTail(t)
    ensures r.policySource == t.policySource && r.policy == t.policy && r.config == t.config
  {
    PairOne(OfSourceOption(r.policySource), Pair(OfPolicy(r.policy), Whole(r.config)),
            OfSourceOption(t.policySource), Pair(OfPolicy(t.policy), Whole(t.config)));
    PairOne(OfPolicy(r.policy), Whole(r.config), OfPolicy(t.policy), Whole(t.config));
    PolicyOne(r.policy, t.policy);
  }

  lemma RouteOne(r: OfferedRoute, t: OfferedRoute)
    requires OfRoute(r) == OfRoute(t)
    ensures r == t
  {
    hide OfRouteTail;
    hide Pair;
    var x, y := OfRouteTail(r), OfRouteTail(t);
    PairOne(Text(r.id), Pair(OfKind(r.kind), Pair(OfSourceOption(r.source), x)),
            Text(t.id), Pair(OfKind(t.kind), Pair(OfSourceOption(t.source), y)));
    PairOne(OfKind(r.kind), Pair(OfSourceOption(r.source), x), OfKind(t.kind), Pair(OfSourceOption(t.source), y));
    PairOne(OfSourceOption(r.source), x, OfSourceOption(t.source), y);
    TextOne(r.id, t.id);
    RouteTailOne(r, t);
  }

  function OfCredential(c: Credential): nat {
    Pair(Text(c.id), Pair(c.kind, Flag(c.exportable)))
  }

  lemma CredentialOne(c: Credential, d: Credential)
    requires OfCredential(c) == OfCredential(d)
    ensures c == d
  {
    hide Pair;
    PairOne(Text(c.id), Pair(c.kind, Flag(c.exportable)), Text(d.id), Pair(d.kind, Flag(d.exportable)));
    PairOne(c.kind, Flag(c.exportable), d.kind, Flag(d.exportable));
    TextOne(c.id, d.id);
  }

  function OfIdentity(i: Identity): nat {
    Pair(Text(i.deviceId), Text(i.fingerprint))
  }

  lemma IdentityOne(i: Identity, j: Identity)
    requires OfIdentity(i) == OfIdentity(j)
    ensures i == j
  {
    PairOne(Text(i.deviceId), Text(i.fingerprint), Text(j.deviceId), Text(j.fingerprint));
    TextOne(i.deviceId, j.deviceId);
    TextOne(i.fingerprint, j.fingerprint);
  }

  function OfMode(m: Option<ConnectMode>): nat {
    match m
    case None => 0
    case Some(ConnectAuto) => 1
    case Some(OnDemand) => 2
    case Some(ConnectManual) => 3
  }

  function OfLists(c: Candidate): nat {
    Pair(List(OfRoute, c.routes), List(OfCredential, c.credentials))
  }

  lemma ListsOne(c: Candidate, d: Candidate)
    requires OfLists(c) == OfLists(d)
    ensures c.routes == d.routes && c.credentials == d.credentials
  {
    hide List;
    hide Pair;
    PairOne(List(OfRoute, c.routes), List(OfCredential, c.credentials), List(OfRoute, d.routes), List(OfCredential, d.credentials));
    assert Injective(OfRoute) by {
      forall a, b | OfRoute(a) == OfRoute(b) ensures a == b { RouteOne(a, b); }
    }
    assert Injective(OfCredential) by {
      forall a, b | OfCredential(a) == OfCredential(b) ensures a == b { CredentialOne(a, b); }
    }
    ListOne(OfRoute, c.routes, d.routes);
    ListOne(OfCredential, c.credentials, d.credentials);
  }

  function OfSelection(s: Option<int>): nat {
    if s.None? then 0 else 1 + Whole(s.value)
  }

  function OfPolicies(c: Candidate): nat {
    Pair(OfMode(c.connectMode), Pair(OfSelection(c.selection), Flag(c.applyClientPolicy)))
  }

  lemma PoliciesOne(c: Candidate, d: Candidate)
    requires OfPolicies(c) == OfPolicies(d)
    ensures c.connectMode == d.connectMode && c.selection == d.selection && c.applyClientPolicy == d.applyClientPolicy
  {
    hide Pair;
    PairOne(OfMode(c.connectMode), Pair(OfSelection(c.selection), Flag(c.applyClientPolicy)),
            OfMode(d.connectMode), Pair(OfSelection(d.selection), Flag(d.applyClientPolicy)));
    PairOne(OfSelection(c.selection), Flag(c.applyClientPolicy), OfSelection(d.selection), Flag(d.applyClientPolicy));
  }

  function OfCandidate(c: Candidate): nat {
    Pair(Rank(c.source), Pair(OfIdentity(c.identity), Pair(Text(c.display), Pair(OfPolicies(c), OfLists(c)))))
  }

  /** No two candidates have the same number. */
  lemma CandidateOne(c: Candidate, d: Candidate)
    requires OfCandidate(c) == OfCandidate(d)
    ensures c == d
  {
    hide Pair;
    hide OfPolicies;
    hide OfLists;
    hide OfIdentity;
    hide Text;
    var x, y := Pair(OfPolicies(c), OfLists(c)), Pair(OfPolicies(d), OfLists(d));
    PairOne(Rank(c.source), Pair(OfIdentity(c.identity), Pair(Text(c.display), x)),
            Rank(d.source), Pair(OfIdentity(d.identity), Pair(Text(d.display), y)));
    PairOne(OfIdentity(c.identity), Pair(Text(c.display), x), OfIdentity(d.identity), Pair(Text(d.display), y));
    PairOne(Text(c.display), x, Text(d.display), y);
    PairOne(OfPolicies(c), OfLists(c), OfPolicies(d), OfLists(d));
    IdentityOne(c.identity, d.identity);
    TextOne(c.display, d.display);
    PoliciesOne(c, d);
    ListsOne(c, d);
  }

  // ------------------------------------------------------------------ sound rules

  function Digits(fingerprint: string): (d: string)
    ensures |d| == 64
  {
    seq(64, _ => '0')
  }

  /** Everything that is not empty is accepted. */
  function PlainRules(): Rules {
    Rules((id: string) => id != "", (i: Identity) => i.deviceId != "" && i.fingerprint != "", (r: Route, i: Identity) => true,
          (s: int) => true, (c: Credential) => true, (t: string) => Text(t), (c: Candidate) => OfCandidate(c), Digits)
  }

  lemma PlainRulesSound()
    ensures Sound(PlainRules())
  {
    var x := PlainRules();
    forall a, b | x.textKey(a) == x.textKey(b) ensures a == b { TextOne(a, b); }
    forall a, b | x.candidateKey(a) == x.candidateKey(b) ensures a == b { CandidateOne(a, b); }
  }

  // ------------------------------------------------------------------ a concrete loss

  const SAVED: Endpoint :=
    Endpoint("saved", User, Identity("", ""), OnDemand, true, 0, map["local" := Route(LocalUnix, User, User, NO_POLICY, 0)])

  const ROUTE: OfferedRoute := OfferedRoute("ssh", SshWebRtc, None, None, NO_POLICY, 0)

  const NEWCOMER: Candidate := Candidate(Manual, Identity("device", "fingerprint"), "new", [ROUTE], None, None, false, [])

  /** Fourteen saved endpoints, one new daemon: an assembly that succeeds and loses one of them. */
  lemma LossHappens() returns (x: Rules, reg: Registry, out: Result, id: string)
    ensures Sound(x) && RegistryOk(x, reg) && Assembles(x, reg, [NEWCOMER], [], Some(out))
    ensures id in reg.endpoints && !Survives(reg, out.registry, [], id)
  {
    PlainRulesSound();
    x := PlainRules();
    assert CrowdedCase(x, SAVED, NEWCOMER, ROUTE) by { NewcomerFits(); }
    hide Sound;
    hide CrowdedCase;
    hide RegistryOk;
    hide Assembles;
    out := CrowdedLosesEndpoint(x, SAVED, NEWCOMER, ROUTE);
    reg, id := Crowded(x, NEWCOMER.identity.fingerprint, SAVED), DerivedId(x, NEWCOMER.identity.fingerprint, 13);
  }

  lemma NewcomerFits()
    requires Sound(PlainRules())
    ensures CrowdedCase(PlainRules(), SAVED, NEWCOMER, ROUTE)
  {
    var x := PlainRules();
    hide Text;
    hide OfCandidate;
    assert "local" in SAVED.routes;
    assert SAVED.routes.Keys == {"local"};
    assert EndpointOk(x, SAVED);
    assert SortCredentials(x, []) == [] && Dedupe([]) == Some([]);
    forall i | 0 <= i < 14 ensures x.idOk(DerivedId(x, NEWCOMER.identity.fingerprint, i)) {}
  }
}
