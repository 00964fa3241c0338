/** The planner as it runs: the checks on the request, the filter loop, and the plan. */
module PlannerMethods {
  import opened Assembler
  import opened Planner
  import opened PlannerProofs
  import AssemblerMethods

  /** routeKindSet */
  method KindSet(kinds: seq<Option<Kind>>) returns (ok: bool, known: set<Kind>)
    ensures ok <==> None !in kinds
    ensures ok ==> known == set k: Kind | Some(k) in kinds
  {
    known := {};
    for n := 0 to |kinds|
      invariant None !in kinds[..n] && known == set k: Kind | Some(k) in kinds[..n]
    {
      assert kinds[..n + 1] == kinds[..n] + [kinds[n]];
      if kinds[n].None? {
        return false, {};
      }
      known := known + {kinds[n].value};
    }
    assert kinds[..|kinds|] == kinds;
    ok := true;
  }

  /** credentialRefSet */
  method ReferenceSet(references: seq<string>) returns (ok: bool, known: set<string>)
    ensures ok <==> forall r :: r in references ==> Clean(r)
    ensures ok ==> known == set r | r in references
  {
    hide Clean;
    known := {};
    for n := 0 to |references|
      invariant (forall r :: r in references[..n] ==> Clean(r)) && known == set r | r in references[..n]
    {
      assert references[..n + 1] == references[..n] + [references[n]];
      if !Clean(references[n]) {
        return false, {};
      }
      known := known + {references[n]};
    }
    assert references[..|references|] == references;
    ok := true;
  }

  /** The loop that sorts out which routes can be tried. */
  method FilterRoutes(list: seq<Listed>, preference: Preference, m: Means)
    returns (automatic: seq<Listed>, diagnostics: seq<Diagnostic>, blocked: bool)
    ensures automatic == Automatic(list, preference, m) && diagnostics == Diagnostics(list, preference, m)
    ensures blocked == Blocked(list, preference, m)
  {
    automatic, diagnostics, blocked := [], [], false;
    for n := 0 to |list|
      invariant automatic == Automatic(list[..n], preference, m) && diagnostics == Diagnostics(list[..n], preference, m)
      invariant blocked == Blocked(list[..n], preference, m)
    {
      assert list[..n + 1][..n] == list[..n] && list[..n + 1][n] == list[n];
      var id, r := list[n].id, list[n].route;
      if !r.policy.enabled {
        diagnostics := diagnostics + [Diagnostic(id, Disabled)];
      } else if r.policy.manualOnly {
        diagnostics := diagnostics + [Diagnostic(id, ManualOnly)];
      } else if !Matches(r.kind, preference) {
        diagnostics := diagnostics + [Diagnostic(id, PreferenceMismatch)];
      } else if r.kind !in m.supported {
        diagnostics := diagnostics + [Diagnostic(id, PlatformUnsupported)];
      } else if !(m.needs(r) <= m.credentials) {
        blocked := true;
        diagnostics := diagnostics + [Diagnostic(id, CredentialUnavailable)];
      } else {
        automatic := automatic + [list[n]];
      }
    }
    assert list[..|list|] == list;
  }

  /** A request the planner looks into: its endpoint valid and enabled, its fields in order. */
  ghost predicate Proper(x: Rules, q: Request) {
    && EndpointOk(x, q.endpoint) && q.endpoint.enabled
    && q.generation != 0 && !Blank(q.intent.kind) && None !in q.kinds && forall r :: r in q.references ==> Clean(r)
  }

  /** The only attempt of a plan for a route asked for by name. */
  ghost predicate Single(q: Request, plan: Plan) {
    && q.override.Some? && q.override.value in q.endpoint.routes
    && var r := q.endpoint.routes[q.override.value];
       plan == Plan(q.id, q.generation, [AttemptGroup(r.policy.priority, 0, [Attempt(q.Marks(), q.override.value, r)])], [])
  }

  /** No route of an automatic plan is left: for want of a credential, or otherwise. */
  ghost predicate NoneLeft(q: Request, error: Error) {
    && (forall id :: id in q.endpoint.routes ==> Obstacle(q.endpoint.routes[id], q.preference, q.Abilities()).Some?)
    && (error == if LacksCredential(q) then CredentialRequired else RouteUnavailable)
  }

  ghost predicate LacksCredential(q: Request) {
    exists id :: id in q.endpoint.routes
                 && Obstacle(q.endpoint.routes[id], q.preference, q.Abilities()) == Some(CredentialUnavailable)
  }

  /** The automatic part of Plan. */
  method PlanAutomatic(x: Rules, q: Request, m: Means) returns (plan: Plan)
    requires Sound(x) && Proper(x, q) && m == q.Abilities()
    ensures plan.Plan? ==> Partitions(x, q, plan) && plan.groups != []
    ensures plan.Failed? ==> NoneLeft(q, plan.error)
  {
    hide Sound;
    hide Clean;
    hide Blank;
    hide Obstacle;
    hide Partitions;
    var routes := RouteList(x, q.endpoint.routes);
    AllOrNone(x, q.endpoint, routes, q.preference, m);
    hide EndpointOk;
    var automatic, diagnostics, blocked := FilterRoutes(routes, q.preference, m);
    hide Automatic;
    hide Diagnostics;
    hide Blocked;
    if automatic == [] {
      BlockedRoute(x, q.endpoint.routes, routes, q.preference, m);
      forall id | id in q.endpoint.routes ensures Obstacle(q.endpoint.routes[id], q.preference, m).Some? {
        AutomaticHas(routes, q.preference, m, Listed(id, q.endpoint.routes[id]));
      }
      plan := Failed(if blocked then CredentialRequired else RouteUnavailable);
      return;
    }
    hide IsList;
    hide Grouped;
    var groups := GroupAutomatic(automatic);
    plan := Plan(q.id, q.generation, Timed(groups, q.hedge, q.Marks()), diagnostics);
    PlanPartitions(x, q, routes, groups, plan);
  }

  /**
   Plan: a route asked for by name is tried alone, manual-only or not; otherwise the routes are
   partitioned. It fails exactly for an improper request, a named route that is not there,
   disabled or not available, or when no automatic route is left.
   */
  method PlanRoutes(x: Rules, q: Request) returns (plan: Plan)
    requires Sound(x)
    ensures !Proper(x, q) ==> plan == Failed(if EndpointOk(x, q.endpoint) && !q.endpoint.enabled then RouteUnavailable else ConfigError)
    ensures Proper(x, q) && q.override.Some? ==>
              var id, routes, m := q.override.value, q.endpoint.routes, q.Abilities();
              if id in routes && Available(routes[id], Some(routes[id]), m) then Single(q, plan)
              else plan == Failed(if id in routes && routes[id].policy.enabled && routes[id].kind in m.supported
                                  then CredentialRequired else RouteUnavailable)
    ensures Proper(x, q) && q.override.None? ==>
              if plan.Plan? then Partitions(x, q, plan) && plan.groups != [] else NoneLeft(q, plan.error)
  {
    hide Sound;
    hide Clean;
    hide Blank;
    hide Partitions;
    hide NoneLeft;
    var valid := AssemblerMethods.ValidEndpoint(x, q.endpoint);
    hide EndpointOk;
    if !valid {
      return Failed(ConfigError);
    }
    if !q.endpoint.enabled {
      return Failed(RouteUnavailable);
    }
    if q.generation == 0 || Blank(q.intent.kind) {
      return Failed(ConfigError);
    }
    var ok, supported := KindSet(q.kinds);
    if !ok {
      return Failed(ConfigError);
    }
    var ok', credentials := ReferenceSet(q.references);
    if !ok' {
      return Failed(ConfigError);
    }
    var m := Means(supported, credentials, q.needs);
    if q.override.Some? {
      var id := q.override.value;
      if id !in q.endpoint.routes || !q.endpoint.routes[id].policy.enabled {
        return Failed(RouteUnavailable);
      }
      var r := q.endpoint.routes[id];
      if r.kind !in m.supported {
        return Failed(RouteUnavailable);
      }
      if !(m.needs(r) <= m.credentials) {
        return Failed(CredentialRequired);
      }
      var groups := Timed([Group(r.policy.priority, [Listed(id, r)])], 0, q.Marks());
      assert Attempts([Listed(id, r)], q.Marks()) == [Attempt(q.Marks(), id, r)];
      assert groups == [AttemptGroup(r.policy.priority, 0, [Attempt(q.Marks(), id, r)])];
      return Plan(q.id, q.generation, groups, []);
    }
    plan := PlanAutomatic(x, q, m);
  }
}
