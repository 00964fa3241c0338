/**
 The endpoint assembler: verified candidates from several sources are merged into the saved
 registry, by daemon identity, with ranked provenance.

 `Rules` holds what the merge takes from elsewhere: text and identity checks, the kind-specific
 route check, the total order behind candidateSortKey and the digest behind derived IDs.
 */
module Assembler {

  datatype Option<+T> = None | Some(value: T)

  datatype Source = LAN | Cloud | Bootstrap | Local | Manual | Share | User

  function Rank(s: Source): nat {
    match s
    case LAN => 0
    case Cloud => 10
    case Bootstrap => 20
    case Local => 25
    case Manual => 30
    case Share => 40
    case User => 50
  }

  datatype Identity = Identity(deviceId: string, fingerprint: string)
  {
    predicate Empty() {
      deviceId == "" && fingerprint == ""
    }
  }

  datatype Kind = LocalUnix | SshWebRtc | DirectWebRtc | ManagedWebRtc

  datatype RoutePolicy = RoutePolicy(enabled: bool, manualOnly: bool, priority: Option<nat>)

  /** `config` stands for the kind-specific fields, defaults filled in. */
  datatype Route = Route(kind: Kind, source: Source, policySource: Source, policy: RoutePolicy, config: int)

  datatype ConnectMode = ConnectAuto | OnDemand | ConnectManual

  datatype Endpoint = Endpoint(
    display: string, displaySource: Source, identity: Identity, connectMode: ConnectMode, enabled: bool,
    selection: int, routes: map<string, Route>)

  /** An empty `default` is no default. */
  datatype Registry = Registry(default: string, endpoints: map<string, Endpoint>)

  datatype OfferedRoute = OfferedRoute(
    id: string, kind: Kind, source: Option<Source>, policySource: Option<Source>, policy: RoutePolicy, config: int)

  datatype Credential = Credential(id: string, kind: nat, exportable: bool)

  /** `display` is trimmed. */
  datatype Candidate = Candidate(
    source: Source, identity: Identity, display: string, routes: seq<OfferedRoute>, connectMode: Option<ConnectMode>,
    selection: Option<int>, applyClientPolicy: bool, credentials: seq<Credential>)

  datatype Binding = Binding(endpoint: string, identity: Identity)

  datatype Rules = Rules(
    idOk: string -> bool,
    identityOk: Identity -> bool,
    routeOk: (Route, Identity) -> bool,
    selectionOk: int -> bool,
    credentialOk: Credential -> bool,
    textKey: string -> int,
    candidateKey: Candidate -> int,
    digest: string -> string)

  /** What the merge relies on: keys are total orders, digests have 64 digits, a valid identity is whole, a valid ID not empty. */
  ghost predicate Sound(x: Rules) {
    && (forall a, b :: x.textKey(a) == x.textKey(b) ==> a == b)
    && (forall a, b :: x.candidateKey(a) == x.candidateKey(b) ==> a == b)
    && (forall t :: |x.digest(t)| == 64)
    && (forall i :: x.identityOk(i) ==> i.deviceId != "" && i.fingerprint != "")
    && !x.idOk("")
  }

  // ------------------------------------------------------------------ policy

  /** candidateOwnsClientPolicy */
  predicate OwnsPolicy(c: Candidate) {
    c.source == Local || c.source == Manual || c.source == User || (c.source == Share && c.applyClientPolicy)
  }

  const NO_POLICY: RoutePolicy := RoutePolicy(true, false, None)

  /** The checks every candidate passes before anything is merged. */
  predicate CandidateOk(x: Rules, c: Candidate) {
    && c.source != LAN && x.identityOk(c.identity)
    && (c.applyClientPolicy ==> c.source == Share)
    && (c.connectMode.Some? ==> OwnsPolicy(c))
    && (c.selection.Some? ==> OwnsPolicy(c) && x.selectionOk(c.selection.value))
    && (!OwnsPolicy(c) ==> forall i :: 0 <= i < |c.routes| ==> c.routes[i].policy == NO_POLICY)
  }

  /** mergeRoute */
  function MergeRoute(existing: Route, incoming: Route, applyPolicy: bool, force: bool): Route {
    var merged := if Rank(incoming.source) >= Rank(existing.source)
                  then incoming.(policy := existing.policy, policySource := existing.policySource)
                  else existing;
    if applyPolicy && (force || Rank(incoming.policySource) >= Rank(existing.policySource))
    then merged.(policy := incoming.policy, policySource := incoming.policySource)
    else merged
  }

  predicate Prioritized(r: Route) {
    r.policy.enabled && !r.policy.manualOnly && r.policy.priority.Some?
  }

  predicate HasPrioritized(routes: map<string, Route>) {
    exists id :: id in routes && Prioritized(routes[id])
  }

  // ------------------------------------------------------------------ routes

  function Incoming(c: Candidate, r: OfferedRoute): Route {
    Route(r.kind, c.source, c.source, r.policy, r.config)
  }

  predicate Forces(c: Candidate) {
    c.source == Share && c.applyClientPolicy
  }

  predicate RouteAdmissible(x: Rules, c: Candidate, r: OfferedRoute) {
    && x.idOk(r.id)
    && (r.source.None? || r.source.value == c.source)
    && (r.policySource.None? || r.policySource.value == c.source)
    && x.routeOk(Incoming(c, r), c.identity)
  }

  /** A route the endpoint does not have yet. */
  function NewRoute(routes: map<string, Route>, c: Candidate, r: OfferedRoute): Route {
    if OwnsPolicy(c) then Incoming(c, r)
    else
      Incoming(c, r).(policySource := Local,
                      policy := if HasPrioritized(routes) then r.policy.(manualOnly := true) else r.policy)
  }

  function AddRoute(x: Rules, routes: map<string, Route>, c: Candidate, r: OfferedRoute): Option<map<string, Route>> {
    if !RouteAdmissible(x, c, r) then None
    else if r.id !in routes then Some(routes[r.id := NewRoute(routes, c, r)])
    else if routes[r.id].kind != r.kind then None
    else Some(routes[r.id := MergeRoute(routes[r.id], Incoming(c, r), OwnsPolicy(c), Forces(c))])
  }

  /** The first n offered routes merged in. */
  function AddRoutes(x: Rules, routes: map<string, Route>, c: Candidate, rs: seq<OfferedRoute>, n: nat): Option<map<string, Route>>
    requires n <= |rs|
  {
    if n == 0 then Some(routes)
    else
      match AddRoutes(x, routes, c, rs, n - 1)
      case None => None
      case Some(before) => AddRoute(x, before, c, rs[n - 1])
  }

  // ------------------------------------------------------------------ stable sorting

  function InsertRoute(x: Rules, sorted: seq<OfferedRoute>, r: OfferedRoute): (out: seq<OfferedRoute>)
    ensures |out| == |sorted| + 1
  {
    if sorted != [] && x.textKey(sorted[|sorted| - 1].id) > x.textKey(r.id)
    then InsertRoute(x, sorted[..|sorted| - 1], r) + [sorted[|sorted| - 1]]
    else sorted + [r]
  }

  /** sort.SliceStable by route ID */
  function SortRoutes(x: Rules, rs: seq<OfferedRoute>): seq<OfferedRoute> {
    if rs == [] then [] else InsertRoute(x, SortRoutes(x, rs[..|rs| - 1]), rs[|rs| - 1])
  }

  /** By fingerprint, then by rank of the source, then by candidateSortKey. */
  predicate Later(x: Rules, a: Candidate, b: Candidate) {
    if a.identity.fingerprint != b.identity.fingerprint
    then x.textKey(a.identity.fingerprint) > x.textKey(b.identity.fingerprint)
    else if Rank(a.source) != Rank(b.source) then Rank(a.source) > Rank(b.source)
    else x.candidateKey(a) > x.candidateKey(b)
  }

  function InsertCandidate(x: Rules, sorted: seq<Candidate>, c: Candidate): (out: seq<Candidate>)
    ensures |out| == |sorted| + 1
  {
    if sorted != [] && Later(x, sorted[|sorted| - 1], c)
    then InsertCandidate(x, sorted[..|sorted| - 1], c) + [sorted[|sorted| - 1]]
    else sorted + [c]
  }

  function SortCandidates(x: Rules, cs: seq<Candidate>): (out: seq<Candidate>)
    ensures |out| == |cs|
  {
    if cs == [] then [] else InsertCandidate(x, SortCandidates(x, cs[..|cs| - 1]), cs[|cs| - 1])
  }

  // ------------------------------------------------------------------ endpoints

  /** The candidate's device or its fingerprint is pinned to another identity. */
  ghost predicate Conflicts(reg: Registry, identity: Identity) {
    exists id :: id in reg.endpoints && Clashes(reg.endpoints[id].identity, identity)
  }

  predicate Clashes(pinned: Identity, identity: Identity) {
    && !pinned.Empty()
    && (pinned.fingerprint == identity.fingerprint) != (pinned.deviceId == identity.deviceId)
  }

  ghost predicate Pinned(reg: Registry, id: string, identity: Identity) {
    id in reg.endpoints && reg.endpoints[id].identity == identity
  }

  /** findEndpointByIdentity, where no identity clashes */
  ghost function Find(reg: Registry, identity: Identity): (r: Option<string>)
    ensures r.Some? ==> Pinned(reg, r.value, identity)
    ensures r.None? ==> forall id :: !Pinned(reg, id, identity)
  {
    if exists id :: Pinned(reg, id, identity) then var id :| Pinned(reg, id, identity); Some(id) else None
  }

  const ID_PREFIX: string := "daemon-"

  /** The i-th ID tried for a fingerprint: 12, 16, ... 64 digits of its digest. */
  function DerivedId(x: Rules, fingerprint: string, i: nat): string
    requires i < 14 && |x.digest(fingerprint)| == 64
  {
    ID_PREFIX + x.digest(fingerprint)[..12 + 4 * i]
  }

  /** deriveEndpointID from the i-th try on; the full digest is used even when it is taken. */
  function DeriveFrom(x: Rules, fingerprint: string, taken: set<string>, i: nat): (id: string)
    requires i < 14 && |x.digest(fingerprint)| == 64
    decreases 14 - i
  {
    if DerivedId(x, fingerprint, i) !in taken || i == 13 then DerivedId(x, fingerprint, i)
    else DeriveFrom(x, fingerprint, taken, i + 1)
  }

  function NewEndpoint(c: Candidate): Endpoint {
    Endpoint(if c.display == "" then c.identity.deviceId else c.display, c.source, c.identity, OnDemand, true, 0, map[])
  }

  function Relabelled(e: Endpoint, c: Candidate): Endpoint {
    if OwnsPolicy(c) && e.displaySource != User && Rank(c.source) >= Rank(e.displaySource) && c.display != ""
    then e.(display := c.display, displaySource := c.source) else e
  }

  function WithPolicy(e: Endpoint, c: Candidate): Endpoint {
    if !OwnsPolicy(c) then e
    else e.(connectMode := if c.connectMode.Some? then c.connectMode.value else e.connectMode,
            selection := if c.selection.Some? then c.selection.value else e.selection)
  }

  datatype Placed = Placed(registry: Registry, id: string)

  /** One candidate's turn in AssembleEndpoints. */
  ghost function MergeCandidate(x: Rules, reg: Registry, c: Candidate): Option<Placed>
    requires Sound(x)
  {
    if Conflicts(reg, c.identity) then None
    else
      var found := Find(reg, c.identity);
      var id := if found.Some? then found.value else DeriveFrom(x, c.identity.fingerprint, reg.endpoints.Keys, 0);
      var e := WithPolicy(if found.Some? then Relabelled(reg.endpoints[found.value], c) else NewEndpoint(c), c);
      var rs := SortRoutes(x, c.routes);
      match AddRoutes(x, e.routes, c, rs, |rs|)
      case None => None
      case Some(routes) =>
        Some(Placed(Registry(if reg.default == "" then id else reg.default, reg.endpoints[id := e.(routes := routes)]), id))
  }

  // ------------------------------------------------------------------ the registry's own rules

  /** Endpoint.Validate, as far as the merge can break it. */
  ghost predicate EndpointOk(x: Rules, e: Endpoint) {
    && e.routes != map[] && x.selectionOk(e.selection)
    && (e.identity.Empty() || x.identityOk(e.identity))
    && (forall id :: id in e.routes ==> x.idOk(id) && x.routeOk(e.routes[id], e.identity))
    && (HasPrioritized(e.routes) ==>
          forall id :: id in e.routes && e.routes[id].policy.enabled && !e.routes[id].policy.manualOnly ==>
            e.routes[id].policy.priority.Some?)
  }

  /** No two endpoints share a device or a fingerprint. */
  ghost predicate UniqueIdentities(reg: Registry) {
    forall a, b :: a in reg.endpoints && b in reg.endpoints && a != b
                   && !reg.endpoints[a].identity.Empty() && !reg.endpoints[b].identity.Empty() ==>
      && reg.endpoints[a].identity.deviceId != reg.endpoints[b].identity.deviceId
      && reg.endpoints[a].identity.fingerprint != reg.endpoints[b].identity.fingerprint
  }

  /** What Normalize accepts. */
  ghost predicate RegistryOk(x: Rules, reg: Registry) {
    if reg.endpoints == map[] then reg.default == ""
    else
      && (forall id :: id in reg.endpoints ==> x.idOk(id) && EndpointOk(x, reg.endpoints[id]))
      && UniqueIdentities(reg)
      && reg.default in reg.endpoints && reg.endpoints[reg.default].enabled
  }

  // ------------------------------------------------------------------ confirmed bindings

  ghost predicate BindingOk(x: Rules, reg: Registry, seen: seq<Binding>, b: Binding, verified: set<Identity>) {
    && x.idOk(b.endpoint) && x.identityOk(b.identity) && b.identity in verified
    && (forall i :: 0 <= i < |seen| ==> seen[i].endpoint != b.endpoint && seen[i].identity != b.identity)
    && b.endpoint in reg.endpoints
  }

  /** One binding's turn in applyConfirmedIdentityBindings. */
  ghost function Bind(x: Rules, reg: Registry, seen: seq<Binding>, b: Binding, verified: set<Identity>): Option<Registry> {
    if !BindingOk(x, reg, seen, b, verified) then None
    else
      var e := reg.endpoints[b.endpoint];
      if !e.identity.Empty() then (if e.identity == b.identity then Some(reg) else None)
      else if Conflicts(reg, b.identity) || Find(reg, b.identity).Some? then None
      else Some(reg.(endpoints := reg.endpoints[b.endpoint := e.(identity := b.identity)]))
  }

  ghost function BindTo(x: Rules, reg: Registry, bs: seq<Binding>, verified: set<Identity>, n: nat): Option<Registry>
    requires n <= |bs|
  {
    if n == 0 then Some(reg)
    else
      match BindTo(x, reg, bs, verified, n - 1)
      case None => None
      case Some(before) => Bind(x, before, bs[..n - 1], bs[n - 1], verified)
  }

  /** identityKey */
  function IdentityText(identity: Identity): string {
    identity.deviceId + "\0" + identity.fingerprint
  }

  /** By endpoint ID, then by identity. */
  predicate BindingLater(x: Rules, a: Binding, b: Binding) {
    if a.endpoint != b.endpoint then x.textKey(a.endpoint) > x.textKey(b.endpoint)
    else x.textKey(IdentityText(a.identity)) > x.textKey(IdentityText(b.identity))
  }

  function InsertBinding(x: Rules, sorted: seq<Binding>, b: Binding): (out: seq<Binding>)
    ensures |out| == |sorted| + 1
  {
    if sorted != [] && BindingLater(x, sorted[|sorted| - 1], b)
    then InsertBinding(x, sorted[..|sorted| - 1], b) + [sorted[|sorted| - 1]]
    else sorted + [b]
  }

  /** sort.SliceStable of the confirmed bindings */
  function SortBindings(x: Rules, bs: seq<Binding>): (out: seq<Binding>)
    ensures |out| == |bs|
  {
    if bs == [] then [] else InsertBinding(x, SortBindings(x, bs[..|bs| - 1]), bs[|bs| - 1])
  }

  /** applyConfirmedIdentityBindings */
  ghost function BindAll(x: Rules, reg: Registry, bs: seq<Binding>, verified: set<Identity>): Option<Registry> {
    match BindTo(x, reg, SortBindings(x, bs), verified, |bs|)
    case None => None
    case Some(bound) => if bs == [] || RegistryOk(x, bound) then Some(bound) else None
  }

  // ------------------------------------------------------------------ credentials

  predicate CredentialLater(x: Rules, a: Credential, b: Credential) {
    if a.id != b.id then x.textKey(a.id) > x.textKey(b.id) else a.kind > b.kind
  }

  function InsertCredential(x: Rules, sorted: seq<Credential>, c: Credential): (out: seq<Credential>)
    ensures |out| == |sorted| + 1
  {
    if sorted != [] && CredentialLater(x, sorted[|sorted| - 1], c)
    then InsertCredential(x, sorted[..|sorted| - 1], c) + [sorted[|sorted| - 1]]
    else sorted + [c]
  }

  function SortCredentials(x: Rules, cs: seq<Credential>): seq<Credential> {
    if cs == [] then [] else InsertCredential(x, SortCredentials(x, cs[..|cs| - 1]), cs[|cs| - 1])
  }

  predicate CredentialsOk(x: Rules, cs: seq<Credential>) {
    forall i :: 0 <= i < |cs| ==> x.credentialOk(cs[i])
  }

  /** normalizeCredentialDescriptors on sorted values: one per ID, defined the same way every time. */
  function Dedupe(cs: seq<Credential>): Option<seq<Credential>> {
    if cs == [] then Some([])
    else
      var last := cs[|cs| - 1];
      match Dedupe(cs[..|cs| - 1])
      case None => None
      case Some(out) =>
        if out != [] && out[|out| - 1].id == last.id then (if out[|out| - 1] == last then Some(out) else None)
        else Some(out + [last])
  }

  // ------------------------------------------------------------------ assembling

  datatype Merged = Merged(registry: Registry, ids: seq<string>, credentials: seq<Credential>)

  /** The first n candidates, in order, merged in. */
  ghost function MergeTo(x: Rules, reg: Registry, cs: seq<Candidate>, n: nat): Option<Merged>
    requires Sound(x) && n <= |cs|
  {
    if n == 0 then Some(Merged(reg, [], []))
    else
      match MergeTo(x, reg, cs, n - 1)
      case None => None
      case Some(m) =>
        match MergeCandidate(x, m.registry, cs[n - 1])
        case None => None
        case Some(p) =>
          if CredentialsOk(x, cs[n - 1].credentials)
          then Some(Merged(p.registry, m.ids + [p.id], m.credentials + cs[n - 1].credentials)) else None
  }

  function Identities(cs: seq<Candidate>): set<Identity> {
    set i | 0 <= i < |cs| :: cs[i].identity
  }

  /** AssembleEndpoints on candidates already in order; `ids` follow that order. */
  ghost function AssembleSorted(x: Rules, reg: Registry, cs: seq<Candidate>, bs: seq<Binding>): Option<Merged>
    requires Sound(x)
  {
    if !RegistryOk(x, reg) || exists i :: 0 <= i < |cs| && !CandidateOk(x, cs[i]) then None
    else
      match BindAll(x, reg, bs, Identities(cs))
      case None => None
      case Some(bound) =>
        match MergeTo(x, bound, cs, |cs|)
        case None => None
        case Some(m) =>
          match Dedupe(SortCredentials(x, m.credentials))
          case None => None
          case Some(credentials) =>
            if RegistryOk(x, m.registry) then Some(m.(credentials := credentials)) else None
  }

  datatype Result = Result(registry: Registry, resolved: seq<string>, credentials: seq<Credential>)

  /** Some turn of this candidate ended at this endpoint. */
  ghost predicate Resolves(sorted: seq<Candidate>, ids: seq<string>, c: Candidate, id: string) {
    |ids| == |sorted| && exists p :: 0 <= p < |sorted| && sorted[p] == c && ids[p] == id
  }

  /** AssembleEndpoints: resolved IDs follow the candidates as they were given. */
  ghost predicate Assembles(x: Rules, reg: Registry, cs: seq<Candidate>, bs: seq<Binding>, out: Option<Result>)
    requires Sound(x)
  {
    var sorted := SortCandidates(x, cs);
    match AssembleSorted(x, reg, sorted, bs)
    case None => out.None?
    case Some(m) =>
      && out.Some? && out.value.registry == m.registry && out.value.credentials == m.credentials
      && |m.ids| == |sorted| && |out.value.resolved| == |cs|
      && (forall i :: 0 <= i < |cs| ==> Resolves(sorted, m.ids, cs[i], out.value.resolved[i]))
  }
}
