/**
 The route planner: the routes of one endpoint become timed groups of attempts, and every
 route left out gets a diagnostic.
 */
module Planner {
  import opened Assembler

  datatype Preference = AnyRoute | PreferDirect | PreferSsh | PreferCloud

  /** The capabilities a plan is made for. `needs` are the credential references of a route. */
  datatype Means = Means(supported: set<Kind>, credentials: set<string>, needs: Route -> set<string>)

  datatype Reason = Disabled | ManualOnly | PreferenceMismatch | PlatformUnsupported | CredentialUnavailable

  datatype Listed = Listed(id: string, route: Route)

  datatype Diagnostic = Diagnostic(id: string, reason: Reason)

  datatype Group = Group(priority: Option<nat>, routes: seq<Listed>)

  datatype Intent = Intent(kind: string, terminal: string, scopes: seq<string>)

  /** What all attempts of a plan have in common. */
  datatype Stamp = Stamp(endpoint: string, identity: Identity, intent: Intent, generation: nat)

  datatype Attempt = Attempt(stamp: Stamp, id: string, route: Route)

  datatype AttemptGroup = AttemptGroup(priority: Option<nat>, delay: nat, attempts: seq<Attempt>)

  datatype Error = ConfigError | RouteUnavailable | CredentialRequired

  datatype Plan =
    | Failed(error: Error)
    | Plan(endpoint: string, generation: nat, groups: seq<AttemptGroup>, diagnostics: seq<Diagnostic>)

  /**
   What a plan is asked for. `preference` and `hedge` are the endpoint's selection policy,
   `override` the trimmed ID of a route asked for by name; a kind the planner does not know is None.
   */
  datatype Request = Request(
    id: string, endpoint: Endpoint, preference: Preference, hedge: nat, intent: Intent, override: Option<string>,
    generation: nat, kinds: seq<Option<Kind>>, references: seq<string>, needs: Route -> set<string>)
  {
    function Marks(): Stamp {
      Stamp(id, endpoint.identity, intent, generation)
    }

    function Abilities(): Means {
      Means((set k: Kind | Some(k) in kinds), (set r | r in references), needs)
    }
  }

  /** Unicode white space. */
  predicate Space(c: char) {
    var u := c as int;
    9 <= u <= 13 || u == 32 || u == 0x85 || u == 0xA0 || u == 0x1680 || 0x2000 <= u <= 0x200A
    || u == 0x2028 || u == 0x2029 || u == 0x202F || u == 0x205F || u == 0x3000
  }

  predicate Blank(s: string) {
    forall i :: 0 <= i < |s| ==> Space(s[i])
  }

  /** A credential reference: not empty, no space around it, on one line. */
  predicate Clean(s: string) {
    s != "" && !Space(s[0]) && !Space(s[|s| - 1]) && '\r' !in s && '\n' !in s
  }

  /** routeMatchesPreference */
  predicate Matches(kind: Kind, preference: Preference) {
    match preference
    case AnyRoute => true
    case PreferDirect => kind == DirectWebRtc
    case PreferSsh => kind == SshWebRtc
    case PreferCloud => kind == ManagedWebRtc
  }

  /** Why a route is left out of an automatic plan, if it is. */
  function Obstacle(r: Route, preference: Preference, m: Means): Option<Reason> {
    if !r.policy.enabled then Some(Disabled)
    else if r.policy.manualOnly then Some(ManualOnly)
    else if !Matches(r.kind, preference) then Some(PreferenceMismatch)
    else if r.kind !in m.supported then Some(PlatformUnsupported)
    else if !(m.needs(r) <= m.credentials) then Some(CredentialUnavailable)
    else None
  }

  /** EvaluateRouteAvailability for one route, with the same route of the planning endpoint. */
  predicate Available(r: Route, planned: Option<Route>, m: Means) {
    && r.policy.enabled
    && (r.kind == ManagedWebRtc ==> planned.Some? && planned.value.policy.enabled)
    && r.kind in m.supported && m.needs(r) <= m.credentials
  }

  // ------------------------------------------------------------------ listing routes

  /** The routes of an endpoint in the order of their IDs. */
  ghost predicate IsList(x: Rules, routes: map<string, Route>, list: seq<Listed>) {
    && (forall i, j :: 0 <= i < j < |list| ==> x.textKey(list[i].id) < x.textKey(list[j].id))
    && (forall i :: 0 <= i < |list| ==> list[i].id in routes && routes[list[i].id] == list[i].route)
    && (forall id :: id in routes ==> Listed(id, routes[id]) in list)
  }

  function InsertListed(x: Rules, list: seq<Listed>, t: Listed): seq<Listed> {
    if list != [] && x.textKey(list[|list| - 1].id) > x.textKey(t.id)
    then InsertListed(x, list[..|list| - 1], t) + [list[|list| - 1]]
    else list + [t]
  }

  ghost predicate Rising(x: Rules, list: seq<Listed>) {
    forall i, j :: 0 <= i < j < |list| ==> x.textKey(list[i].id) < x.textKey(list[j].id)
  }

  lemma {:induction false} InsertRises(x: Rules, list: seq<Listed>, t: Listed)
    requires Rising(x, list) && forall i :: 0 <= i < |list| ==> x.textKey(list[i].id) != x.textKey(t.id)
    ensures Rising(x, InsertListed(x, list, t))
    ensures forall u :: u in InsertListed(x, list, t) <==> u in list || u == t
  {
    if list != [] && x.textKey(list[|list| - 1].id) > x.textKey(t.id) {
      var init, last := list[..|list| - 1], list[|list| - 1];
      InsertRises(x, init, t);
      var rest := InsertListed(x, init, t);
      forall i | 0 <= i < |rest| ensures x.textKey(rest[i].id) < x.textKey(last.id) {
        assert rest[i] in rest;
        assert rest[i] in init || rest[i] == t;
      }
      assert list == init + [last];
    }
  }

  /** RouteList */
  method RouteList(x: Rules, routes: map<string, Route>) returns (list: seq<Listed>)
    requires Sound(x)
    ensures IsList(x, routes, list)
  {
    list := [];
    var left := routes.Keys;
    while left != {}
      invariant left <= routes.Keys && Rising(x, list)
      invariant forall u :: u in list <==> u.id in routes && u.id !in left && u.route == routes[u.id]
      decreases |left|
    {
      var id :| id in left;
      forall i | 0 <= i < |list| ensures x.textKey(list[i].id) != x.textKey(id) { assert list[i] in list; }
      InsertRises(x, list, Listed(id, routes[id]));
      list := InsertListed(x, list, Listed(id, routes[id]));
      left := left - {id};
    }
    forall i | 0 <= i < |list| ensures list[i].id in routes && routes[list[i].id] == list[i].route {
      assert list[i] in list;
    }
  }

  // ------------------------------------------------------------------ filtering

  /** The routes without an obstacle, in order. */
  function Automatic(list: seq<Listed>, preference: Preference, m: Means): seq<Listed> {
    if list == [] then []
    else
      var last := list[|list| - 1];
      Automatic(list[..|list| - 1], preference, m) + if Obstacle(last.route, preference, m).None? then [last] else []
  }

  function Diagnostics(list: seq<Listed>, preference: Preference, m: Means): seq<Diagnostic> {
    if list == [] then []
    else
      var last := list[|list| - 1];
      Diagnostics(list[..|list| - 1], preference, m)
      + match Obstacle(last.route, preference, m)
        case None => []
        case Some(reason) => [Diagnostic(last.id, reason)]
  }

  /** The routes of one priority, in order. */
  function OfPriority(list: seq<Listed>, p: nat): seq<Listed> {
    if list == [] then []
    else OfPriority(list[..|list| - 1], p)
         + if list[|list| - 1].route.policy.priority == Some(p) then [list[|list| - 1]] else []
  }

  predicate Prioritised(list: seq<Listed>) {
    forall i :: 0 <= i < |list| ==> list[i].route.policy.priority.Some?
  }

  predicate Unprioritised(list: seq<Listed>) {
    forall i :: 0 <= i < |list| ==> list[i].route.policy.priority.None?
  }

  // ------------------------------------------------------------------ grouping

  function InsertPriority(ps: seq<nat>, p: nat): seq<nat> {
    if ps != [] && ps[|ps| - 1] > p then InsertPriority(ps[..|ps| - 1], p) + [ps[|ps| - 1]] else ps + [p]
  }

  ghost predicate Increasing(ps: seq<nat>) {
    forall i, j :: 0 <= i < j < |ps| ==> ps[i] < ps[j]
  }

  lemma {:induction false} InsertIncreases(ps: seq<nat>, p: nat)
    requires Increasing(ps) && p !in ps
    ensures Increasing(InsertPriority(ps, p)) && forall q :: q in InsertPriority(ps, p) <==> q in ps || q == p
  {
    if ps != [] && ps[|ps| - 1] > p {
      var init, last := ps[..|ps| - 1], ps[|ps| - 1];
      assert ps == init + [last];
      InsertIncreases(init, p);
      var rest := InsertPriority(init, p);
      forall i | 0 <= i < |rest| ensures rest[i] < last {
        assert rest[i] in rest;
      }
    } else if ps != [] {
      assert ps[|ps| - 1] != p;
    }
  }

  /** What grouping means: one group per priority, in rising order, each with its routes in order. */
  ghost predicate Grouped(list: seq<Listed>, groups: seq<Group>) {
    if Unprioritised(list) then groups == [Group(None, list)]
    else
      && (forall g :: 0 <= g < |groups| ==>
            groups[g].priority.Some? && groups[g].routes == OfPriority(list, groups[g].priority.value)
            && groups[g].routes != [])
      && (forall g, h :: 0 <= g < h < |groups| ==> groups[g].priority.value < groups[h].priority.value)
      && (forall i :: 0 <= i < |list| ==>
            exists g :: 0 <= g < |groups| && groups[g].priority == list[i].route.policy.priority)
  }

  lemma {:induction false} PriorityHas(list: seq<Listed>, p: nat, t: Listed)
    ensures t in OfPriority(list, p) <==> t in list && t.route.policy.priority == Some(p)
  {
    if list != [] {
      assert list == list[..|list| - 1] + [list[|list| - 1]];
      PriorityHas(list[..|list| - 1], p, t);
    }
  }

  /** The first n routes sorted into buckets by priority. */
  ghost predicate Bucketed(list: seq<Listed>, buckets: map<nat, seq<Listed>>, priorities: seq<nat>) {
    && Increasing(priorities)
    && (forall p :: p in priorities <==> p in buckets)
    && (forall p :: p in buckets ==> buckets[p] == OfPriority(list, p) && buckets[p] != [])
    && (forall p: nat :: p !in buckets ==> OfPriority(list, p) == [])
    && (forall i :: 0 <= i < |list| ==> list[i].route.policy.priority.Some? && list[i].route.policy.priority.value in buckets)
  }

  lemma PriorityNext(list: seq<Listed>, t: Listed, p: nat)
    ensures OfPriority(list + [t], p) == OfPriority(list, p) + (if t.route.policy.priority == Some(p) then [t] else [])
  {
    assert (list + [t])[..|list|] == list;
  }

  lemma BucketNext(list: seq<Listed>, t: Listed, buckets: map<nat, seq<Listed>>, priorities: seq<nat>)
    requires Bucketed(list, buckets, priorities) && t.route.policy.priority.Some?
    ensures var p := t.route.policy.priority.value;
            if p in buckets then Bucketed(list + [t], buckets[p := buckets[p] + [t]], priorities)
            else Bucketed(list + [t], buckets[p := [t]], InsertPriority(priorities, p))
  {
    hide InsertPriority;
    hide OfPriority;
    hide Increasing;
    var p := t.route.policy.priority.value;
    forall q: nat ensures OfPriority(list + [t], q) == OfPriority(list, q) + (if p == q then [t] else []) {
      PriorityNext(list, t, q);
    }
    if p !in buckets { InsertIncreases(priorities, p); }
  }

  method BucketRoutes(list: seq<Listed>) returns (buckets: map<nat, seq<Listed>>, priorities: seq<nat>)
    requires Prioritised(list)
    ensures Bucketed(list, buckets, priorities)
  {
    buckets, priorities := map[], [];
    assert Bucketed(list[..0], buckets, priorities);
    hide Bucketed;
    hide InsertPriority;
    for n := 0 to |list|
      invariant Bucketed(list[..n], buckets, priorities)
    {
      var p := list[n].route.policy.priority.value;
      BucketNext(list[..n], list[n], buckets, priorities);
      assert list[..n + 1] == list[..n] + [list[n]];
      if p in buckets {
        buckets := buckets[p := buckets[p] + [list[n]]];
      } else {
        priorities := InsertPriority(priorities, p);
        buckets := buckets[p := [list[n]]];
      }
    }
    assert list[..|list|] == list;
  }

  lemma BucketsGroup(list: seq<Listed>, buckets: map<nat, seq<Listed>>, priorities: seq<nat>, groups: seq<Group>)
    requires list != [] && Bucketed(list, buckets, priorities) && |groups| == |priorities|
    requires forall g :: 0 <= g < |priorities| ==> groups[g] == Group(Some(priorities[g]), OfPriority(list, priorities[g]))
    ensures Grouped(list, groups) && groups != []
  {
    hide OfPriority;
    forall g | 0 <= g < |groups| ensures groups[g].routes != [] { assert priorities[g] in buckets; }
    forall i | 0 <= i < |list| ensures exists g :: 0 <= g < |groups| && groups[g].priority == list[i].route.policy.priority {
      var p := list[i].route.policy.priority.value;
      assert p in priorities;
      var g :| 0 <= g < |priorities| && priorities[g] == p;
      assert groups[g].priority == list[i].route.policy.priority;
    }
    assert list[0].route.policy.priority.Some? && list[0].route.policy.priority.value in priorities;
  }

  lemma BucketAt(list: seq<Listed>, buckets: map<nat, seq<Listed>>, priorities: seq<nat>, n: nat)
    requires Bucketed(list, buckets, priorities) && n < |priorities|
    ensures priorities[n] in buckets && buckets[priorities[n]] == OfPriority(list, priorities[n])
  {
    hide OfPriority;
    assert priorities[n] in priorities;
  }

  method GroupByPriority(list: seq<Listed>) returns (groups: seq<Group>)
    requires list != [] && Prioritised(list)
    ensures Grouped(list, groups) && groups != []
  {
    hide OfPriority;
    hide Bucketed;
    hide Grouped;
    hide Prioritised;
    var buckets, priorities := BucketRoutes(list);
    groups := [];
    for n := 0 to |priorities|
      invariant |groups| == n
      invariant forall g :: 0 <= g < n ==> groups[g] == Group(Some(priorities[g]), OfPriority(list, priorities[g]))
    {
      BucketAt(list, buckets, priorities, n);
      groups := groups + [Group(Some(priorities[n]), buckets[priorities[n]])];
    }
    BucketsGroup(list, buckets, priorities, groups);
  }

  /** groupAutomaticRoutes; every priority it reads is there. */
  method GroupAutomatic(list: seq<Listed>) returns (groups: seq<Group>)
    requires list != [] && (Prioritised(list) || Unprioritised(list))
    ensures Grouped(list, groups) && groups != []
  {
    hide OfPriority;
    if list[0].route.policy.priority.None? {
      return [Group(None, list)];
    }
    groups := GroupByPriority(list);
  }

  // ------------------------------------------------------------------ planning

  function Attempts(list: seq<Listed>, stamp: Stamp): (r: seq<Attempt>)
    ensures |r| == |list| && forall i :: 0 <= i < |r| ==> r[i] == Attempt(stamp, list[i].id, list[i].route)
  {
    seq(|list|, i requires 0 <= i < |list| => Attempt(stamp, list[i].id, list[i].route))
  }

  /** newRouteSelectionPlan's groups */
  function Timed(groups: seq<Group>, hedge: nat, stamp: Stamp): (r: seq<AttemptGroup>)
    ensures |r| == |groups|
    ensures forall g :: 0 <= g < |r| ==> r[g] == AttemptGroup(groups[g].priority, g * hedge, Attempts(groups[g].routes, stamp))
  {
    seq(|groups|, g requires 0 <= g < |groups| =>
      AttemptGroup(groups[g].priority, g * hedge, Attempts(groups[g].routes, stamp)))
  }

  lemma {:induction false} AutomaticHas(list: seq<Listed>, preference: Preference, m: Means, t: Listed)
    ensures t in Automatic(list, preference, m) <==> t in list && Obstacle(t.route, preference, m).None?
  {
    hide Obstacle;
    if list != [] {
      assert list == list[..|list| - 1] + [list[|list| - 1]];
      AutomaticHas(list[..|list| - 1], preference, m, t);
    }
  }

  lemma {:induction false} DiagnosticsHave(list: seq<Listed>, preference: Preference, m: Means, d: Diagnostic)
    ensures d in Diagnostics(list, preference, m) <==>
            exists t :: t in list && t.id == d.id && Obstacle(t.route, preference, m) == Some(d.reason)
  {
    hide Obstacle;
    if list != [] {
      var init, last := list[..|list| - 1], list[|list| - 1];
      assert list == init + [last];
      DiagnosticsHave(init, preference, m, d);
      if exists t :: t in list && t.id == d.id && Obstacle(t.route, preference, m) == Some(d.reason) {
        var t :| t in list && t.id == d.id && Obstacle(t.route, preference, m) == Some(d.reason);
        assert t in init || t == last;
      }
      if d in Diagnostics(list, preference, m) && d !in Diagnostics(init, preference, m) {
        assert last in list && last.id == d.id && Obstacle(last.route, preference, m) == Some(d.reason);
      }
    }
  }

  /** No ID twice. */
  ghost predicate Distinct(list: seq<Listed>) {
    forall i, j :: 0 <= i < j < |list| ==> list[i].id != list[j].id
  }

  lemma {:induction false} PriorityDistinct(list: seq<Listed>, p: nat)
    requires Distinct(list)
    ensures Distinct(OfPriority(list, p))
  {
    if list != [] {
      var init, last := list[..|list| - 1], list[|list| - 1];
      PriorityDistinct(init, p);
      var before := OfPriority(init, p);
      forall i | 0 <= i < |before| ensures before[i].id != last.id {
        assert before[i] in before;
        PriorityHas(init, p, before[i]);
      }
    }
  }

  lemma {:induction false} AutomaticDistinct(list: seq<Listed>, preference: Preference, m: Means)
    requires Distinct(list)
    ensures Distinct(Automatic(list, preference, m))
  {
    hide Obstacle;
    if list != [] {
      var init, last := list[..|list| - 1], list[|list| - 1];
      AutomaticDistinct(init, preference, m);
      var before := Automatic(init, preference, m);
      forall i | 0 <= i < |before| ensures before[i].id != last.id {
        assert before[i] in before;
        AutomaticHas(init, preference, m, before[i]);
      }
    }
  }

  /** Diagnostics come in the order of the routes, one each. */
  ghost predicate Ordered(x: Rules, ds: seq<Diagnostic>) {
    forall i, j :: 0 <= i < j < |ds| ==> x.textKey(ds[i].id) < x.textKey(ds[j].id)
  }

  lemma {:induction false} DiagnosticsOrdered(x: Rules, list: seq<Listed>, preference: Preference, m: Means)
    requires Rising(x, list)
    ensures Ordered(x, Diagnostics(list, preference, m))
  {
    hide Obstacle;
    if list != [] {
      var init, last := list[..|list| - 1], list[|list| - 1];
      DiagnosticsOrdered(x, init, preference, m);
      var before := Diagnostics(init, preference, m);
      forall i | 0 <= i < |before| ensures x.textKey(before[i].id) < x.textKey(last.id) {
        assert before[i] in before;
        DiagnosticsHave(init, preference, m, before[i]);
      }
    }
  }

  /** An endpoint in order has all-or-none priorities among the routes planned for. */
  lemma AllOrNone(x: Rules, e: Endpoint, list: seq<Listed>, preference: Preference, m: Means)
    requires EndpointOk(x, e) && IsList(x, e.routes, list)
    ensures var automatic := Automatic(list, preference, m); Prioritised(automatic) || Unprioritised(automatic)
  {
    hide Automatic;
    var automatic := Automatic(list, preference, m);
    forall i | 0 <= i < |automatic|
      ensures automatic[i].id in e.routes && e.routes[automatic[i].id] == automatic[i].route
      ensures automatic[i].route.policy.enabled && !automatic[i].route.policy.manualOnly
    {
      assert automatic[i] in automatic;
      AutomaticHas(list, preference, m, automatic[i]);
    }
    if !Unprioritised(automatic) {
      var i :| 0 <= i < |automatic| && automatic[i].route.policy.priority.Some?;
      assert Prioritized(e.routes[automatic[i].id]);
      assert HasPrioritized(e.routes);
    }
  }

  /** A route is left out for want of a credential alone. */
  predicate Blocked(list: seq<Listed>, preference: Preference, m: Means) {
    list != [] && (Blocked(list[..|list| - 1], preference, m)
                   || Obstacle(list[|list| - 1].route, preference, m) == Some(CredentialUnavailable))
  }

  lemma {:induction false} BlockedHas(list: seq<Listed>, preference: Preference, m: Means)
    ensures Blocked(list, preference, m) <==>
            exists t :: t in list && Obstacle(t.route, preference, m) == Some(CredentialUnavailable)
  {
    hide Obstacle;
    if list != [] {
      var init, last := list[..|list| - 1], list[|list| - 1];
      assert list == init + [last];
      BlockedHas(init, preference, m);
      assert last in list;
      assert forall t :: t in list <==> t in init || t == last;
    }
  }

  lemma BlockedRoute(x: Rules, routes: map<string, Route>, list: seq<Listed>, preference: Preference, m: Means)
    requires IsList(x, routes, list)
    ensures Blocked(list, preference, m)
            <==> (exists id :: id in routes && Obstacle(routes[id], preference, m) == Some(CredentialUnavailable))
  {
    hide Obstacle;
    BlockedHas(list, preference, m);
    if exists id :: id in routes && Obstacle(routes[id], preference, m) == Some(CredentialUnavailable) {
      var id :| id in routes && Obstacle(routes[id], preference, m) == Some(CredentialUnavailable);
      assert Listed(id, routes[id]) in list;
    }
  }
}
