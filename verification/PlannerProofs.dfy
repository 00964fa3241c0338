/** What an automatic plan says about every route of its endpoint. */
module PlannerProofs {
  import opened Assembler
  import opened Planner

  ghost predicate Attempted(plan: Plan, id: string)
    requires plan.Plan?
  {
    exists g, i :: 0 <= g < |plan.groups| && 0 <= i < |plan.groups[g].attempts| && plan.groups[g].attempts[i].id == id
  }

  ghost predicate AttemptAt(plan: Plan, id: string, g: nat, i: nat)
    requires plan.Plan?
  {
    g < |plan.groups| && i < |plan.groups[g].attempts| && plan.groups[g].attempts[i].id == id
  }

  /** A plan made of grouped routes, as the planner makes it. */
  ghost predicate Made(x: Rules, routes: map<string, Route>, preference: Preference, hedge: nat, m: Means, stamp: Stamp,
                       list: seq<Listed>, groups: seq<Group>, plan: Plan)
  {
    && IsList(x, routes, list) && Sound(x)
    && Automatic(list, preference, m) != []
    && (Prioritised(Automatic(list, preference, m)) || Unprioritised(Automatic(list, preference, m)))
    && Grouped(Automatic(list, preference, m), groups)
    && plan == Plan(stamp.endpoint, stamp.generation, Timed(groups, hedge, stamp), Diagnostics(list, preference, m))
  }

  // ------------------------------------------------------------------ groups hold the list

  /** A route is in a group exactly when it is planned for, and then in the group of its priority. */
  lemma GroupHolds(list: seq<Listed>, groups: seq<Group>, g: nat, t: Listed)
    requires list != [] && Grouped(list, groups) && (Prioritised(list) || Unprioritised(list)) && g < |groups|
    ensures t in groups[g].routes <==> t in list && t.route.policy.priority == groups[g].priority
  {
    hide OfPriority;
    if Unprioritised(list) {
      if t in list { var i :| 0 <= i < |list| && list[i] == t; }
    } else {
      PriorityHas(list, groups[g].priority.value, t);
    }
  }

  lemma GroupFound(list: seq<Listed>, groups: seq<Group>, t: Listed) returns (g: nat)
    requires list != [] && Grouped(list, groups) && (Prioritised(list) || Unprioritised(list)) && t in list
    ensures g < |groups| && groups[g].priority == t.route.policy.priority
  {
    hide OfPriority;
    var i :| 0 <= i < |list| && list[i] == t;
    g := 0;
    if !Unprioritised(list) { g :| 0 <= g < |groups| && groups[g].priority == list[i].route.policy.priority; }
  }

  lemma GroupDistinct(list: seq<Listed>, groups: seq<Group>, g: nat)
    requires list != [] && Grouped(list, groups) && Distinct(list) && g < |groups|
    ensures Distinct(groups[g].routes)
  {
    if !Unprioritised(list) { PriorityDistinct(list, groups[g].priority.value); }
  }

  // ------------------------------------------------------------------ every route once

  lemma ListDistinct(x: Rules, routes: map<string, Route>, list: seq<Listed>)
    requires IsList(x, routes, list)
    ensures Distinct(list) && Rising(x, list)
  {
  }

  /** A route is attempted exactly when nothing stands in its way. */
  lemma AttemptedIff(x: Rules, routes: map<string, Route>, preference: Preference, hedge: nat, m: Means, stamp: Stamp,
                     list: seq<Listed>, groups: seq<Group>, plan: Plan, id: string)
    requires Made(x, routes, preference, hedge, m, stamp, list, groups, plan) && id in routes
    ensures Attempted(plan, id) <==> Obstacle(routes[id], preference, m).None?
  {
    hide Obstacle;
    hide Grouped;
    hide Automatic;
    hide Diagnostics;
    hide Sound;
    var automatic, t := Automatic(list, preference, m), Listed(id, routes[id]);
    AutomaticHas(list, preference, m, t);
    if t in automatic {
      var g := GroupFound(automatic, groups, t);
      GroupHolds(automatic, groups, g, t);
      var i :| 0 <= i < |groups[g].routes| && groups[g].routes[i] == t;
      assert plan.groups[g].attempts[i].id == id;
    }
    if Attempted(plan, id) {
      var g, i :| 0 <= g < |plan.groups| && 0 <= i < |plan.groups[g].attempts| && plan.groups[g].attempts[i].id == id;
      var u := groups[g].routes[i];
      assert u in groups[g].routes;
      GroupHolds(automatic, groups, g, u);
      AutomaticHas(list, preference, m, u);
      var k :| 0 <= k < |list| && list[k] == u;
    }
  }

  /** A route gets a diagnostic exactly when something stands in its way, and it names that. */
  lemma DiagnosedIff(x: Rules, routes: map<string, Route>, preference: Preference, hedge: nat, m: Means, stamp: Stamp,
                     list: seq<Listed>, groups: seq<Group>, plan: Plan, d: Diagnostic)
    requires Made(x, routes, preference, hedge, m, stamp, list, groups, plan)
    ensures d in plan.diagnostics <==> d.id in routes && Obstacle(routes[d.id], preference, m) == Some(d.reason)
  {
    hide Obstacle;
    hide Grouped;
    hide Automatic;
    hide Diagnostics;
    hide Sound;
    DiagnosticsHave(list, preference, m, d);
    if d.id in routes { assert Listed(d.id, routes[d.id]) in list; }
    if exists t :: t in list && t.id == d.id && Obstacle(t.route, preference, m) == Some(d.reason) {
      var t :| t in list && t.id == d.id && Obstacle(t.route, preference, m) == Some(d.reason);
      var k :| 0 <= k < |list| && list[k] == t;
    }
  }

  /** Attempts are routes of the endpoint, with the priority of their group. */
  lemma AttemptIsRoute(x: Rules, routes: map<string, Route>, preference: Preference, hedge: nat, m: Means, stamp: Stamp,
                       list: seq<Listed>, groups: seq<Group>, plan: Plan, g: nat, i: nat)
    requires Made(x, routes, preference, hedge, m, stamp, list, groups, plan)
    requires g < |plan.groups| && i < |plan.groups[g].attempts|
    ensures var id := plan.groups[g].attempts[i].id;
            && plan.groups[g].attempts[i].stamp == stamp
            && id in routes && plan.groups[g].attempts[i].route == routes[id] && routes[id].policy.priority == plan.groups[g].priority
            && groups[g].routes[i] == Listed(id, routes[id]) && groups[g].routes[i] in Automatic(list, preference, m)
  {
    hide Obstacle;
    hide Grouped;
    hide Automatic;
    hide Diagnostics;
    hide Sound;
    var automatic, u := Automatic(list, preference, m), groups[g].routes[i];
    assert u in groups[g].routes;
    GroupHolds(automatic, groups, g, u);
    AutomaticHas(list, preference, m, u);
    var k :| 0 <= k < |list| && list[k] == u;
  }

  /** No route is attempted twice. */
  lemma AttemptOnce(x: Rules, routes: map<string, Route>, preference: Preference, hedge: nat, m: Means, stamp: Stamp,
                    list: seq<Listed>, groups: seq<Group>, plan: Plan, g: nat, i: nat, h: nat, j: nat)
    requires Made(x, routes, preference, hedge, m, stamp, list, groups, plan)
    requires g < |plan.groups| && i < |plan.groups[g].attempts|
    requires h < |plan.groups| && j < |plan.groups[h].attempts|
    requires plan.groups[g].attempts[i].id == plan.groups[h].attempts[j].id
    ensures g == h && i == j
  {
    AttemptIsRoute(x, routes, preference, hedge, m, stamp, list, groups, plan, g, i);
    AttemptIsRoute(x, routes, preference, hedge, m, stamp, list, groups, plan, h, j);
    GroupsDiffer(Automatic(list, preference, m), groups, g, h);
    ListDistinct(x, routes, list);
    AutomaticDistinct(list, preference, m);
    GroupDistinct(Automatic(list, preference, m), groups, g);
  }

  lemma GroupsDiffer(list: seq<Listed>, groups: seq<Group>, g: nat, h: nat)
    requires list != [] && Grouped(list, groups) && g < |groups| && h < |groups| && groups[g].priority == groups[h].priority
    ensures g == h
  {
    hide OfPriority;
  }

  // ------------------------------------------------------------------ the theorem

  ghost predicate Diagnosed(plan: Plan, id: string)
    requires plan.Plan?
  {
    exists d :: d in plan.diagnostics && d.id == id
  }

  /** Every route is attempted or explained: attempted exactly when available, automatic and preferred. */
  ghost predicate Sorted(q: Request, plan: Plan)
    requires plan.Plan?
  {
    var routes, m := q.endpoint.routes, q.Abilities();
    && (forall id :: id in routes ==>
          (Attempted(plan, id) <==> Available(routes[id], Some(routes[id]), m) && !routes[id].policy.manualOnly
                                    && Matches(routes[id].kind, q.preference)))
    && (forall id :: id in routes ==> (Attempted(plan, id) <==> !Diagnosed(plan, id)))
    && (forall d :: d in plan.diagnostics ==> d.id in routes && Obstacle(routes[d.id], q.preference, m) == Some(d.reason))
  }

  /** No route is attempted twice, and every attempt is for the endpoint, intent and generation asked for. */
  ghost predicate Unmistaken(q: Request, plan: Plan)
    requires plan.Plan?
  {
    var routes := q.endpoint.routes;
    && (forall id, g, i, h, j :: AttemptAt(plan, id, g, i) && AttemptAt(plan, id, h, j) ==> g == h && i == j)
    && (forall id, g: nat, i: nat :: AttemptAt(plan, id, g, i) ==>
          id in routes && plan.groups[g].attempts[i] == Attempt(q.Marks(), id, routes[id])
          && routes[id].policy.priority == plan.groups[g].priority)
  }

  /** Groups start a hedge delay apart in the order of their priorities. */
  ghost predicate Hedged(q: Request, plan: Plan)
    requires plan.Plan?
  {
    && (forall g :: 0 <= g < |plan.groups| ==> plan.groups[g].delay == g * q.hedge && plan.groups[g].attempts != [])
    && (|plan.groups| > 1 ==> forall g :: 0 <= g < |plan.groups| ==> plan.groups[g].priority.Some?)
    && (forall g, h :: 0 <= g < h < |plan.groups| ==> plan.groups[g].priority.value < plan.groups[h].priority.value)
  }

  /** Every route is in exactly one attempt or one diagnostic, and the attempts are timed by priority. */
  ghost predicate Partitions(x: Rules, q: Request, plan: Plan)
    requires plan.Plan?
  {
    && plan.endpoint == q.id && plan.generation == q.generation
    && Sorted(q, plan) && Unmistaken(q, plan) && Hedged(q, plan) && Planner.Ordered(x, plan.diagnostics)
  }

  lemma PlanSorted(x: Rules, q: Request, list: seq<Listed>, groups: seq<Group>, plan: Plan)
    requires Made(x, q.endpoint.routes, q.preference, q.hedge, q.Abilities(), q.Marks(), list, groups, plan)
    ensures Sorted(q, plan)
  {
    var routes, preference, hedge, m, stamp := q.endpoint.routes, q.preference, q.hedge, q.Abilities(), q.Marks();
    assert plan.Plan?;
    hide Made;
    hide Attempted;
    forall d ensures d in plan.diagnostics <==> d.id in routes && Obstacle(routes[d.id], preference, m) == Some(d.reason) {
      DiagnosedIff(x, routes, preference, hedge, m, stamp, list, groups, plan, d);
    }
    forall id | id in routes
      ensures Attempted(plan, id) <==> Available(routes[id], Some(routes[id]), m) && !routes[id].policy.manualOnly
                                       && Matches(routes[id].kind, preference)
      ensures Attempted(plan, id) <==> !Diagnosed(plan, id)
    {
      AttemptedIff(x, routes, preference, hedge, m, stamp, list, groups, plan, id);
      if Obstacle(routes[id], preference, m).Some? {
        assert Diagnostic(id, Obstacle(routes[id], preference, m).value) in plan.diagnostics;
      }
    }
  }

  lemma PlanUnmistaken(x: Rules, q: Request, list: seq<Listed>, groups: seq<Group>, plan: Plan)
    requires Made(x, q.endpoint.routes, q.preference, q.hedge, q.Abilities(), q.Marks(), list, groups, plan)
    ensures Unmistaken(q, plan)
  {
    var routes, preference, hedge, m, stamp := q.endpoint.routes, q.preference, q.hedge, q.Abilities(), q.Marks();
    assert plan.Plan?;
    hide Made;
    forall id, g, i, h, j | AttemptAt(plan, id, g, i) && AttemptAt(plan, id, h, j) ensures g == h && i == j {
      AttemptOnce(x, routes, preference, hedge, m, stamp, list, groups, plan, g, i, h, j);
    }
    forall id, g: nat, i: nat | AttemptAt(plan, id, g, i)
      ensures id in routes && plan.groups[g].attempts[i] == Attempt(stamp, id, routes[id])
              && routes[id].policy.priority == plan.groups[g].priority
    {
      AttemptIsRoute(x, routes, preference, hedge, m, stamp, list, groups, plan, g, i);
    }
  }

  lemma PlanHedged(x: Rules, q: Request, list: seq<Listed>, groups: seq<Group>, plan: Plan)
    requires Made(x, q.endpoint.routes, q.preference, q.hedge, q.Abilities(), q.Marks(), list, groups, plan)
    ensures Hedged(q, plan) && Planner.Ordered(x, plan.diagnostics)
  {
    ListDistinct(x, q.endpoint.routes, list);
    DiagnosticsOrdered(x, list, q.preference, q.Abilities());
    GroupShape(Automatic(list, q.preference, q.Abilities()), groups);
    hide Grouped;
    hide Automatic;
    hide Diagnostics;
    hide Sound;
    hide IsList;
  }

  /** A plan made of grouped routes partitions the routes. */
  lemma PlanPartitions(x: Rules, q: Request, list: seq<Listed>, groups: seq<Group>, plan: Plan)
    requires Made(x, q.endpoint.routes, q.preference, q.hedge, q.Abilities(), q.Marks(), list, groups, plan)
    ensures Partitions(x, q, plan)
  {
    hide Sorted;
    hide Unmistaken;
    hide Hedged;
    hide Grouped;
    hide Automatic;
    hide Diagnostics;
    hide Sound;
    hide IsList;
    hide Planner.Ordered;
    PlanSorted(x, q, list, groups, plan);
    PlanUnmistaken(x, q, list, groups, plan);
    PlanHedged(x, q, list, groups, plan);
  }

  lemma GroupShape(list: seq<Listed>, groups: seq<Group>)
    requires list != [] && Grouped(list, groups)
    ensures forall g :: 0 <= g < |groups| ==> groups[g].routes != []
    ensures |groups| > 1 ==> forall g :: 0 <= g < |groups| ==> groups[g].priority.Some?
    ensures forall g, h :: 0 <= g < h < |groups| ==> groups[g].priority.value < groups[h].priority.value
  {
    hide OfPriority;
  }
}
