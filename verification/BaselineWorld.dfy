/** Any number of protocol sessions sharing the server's baseline counter. */
module BaselineWorld {
  import opened BaselineCache

  datatype World = World(server: int, sessions: seq<Session>)

  datatype Step = Open | Act(session: nat, action: Action)

  function Next(w: World, step: Step): World {
    match step
    case Open => w.(sessions := w.sessions + [NewSession])
    case Act(k, a) =>
      if k >= |w.sessions| then w
      else
        var b := Apply(Books(w.sessions[k], w.server), a);
        World(b.server, w.sessions[k := b.session])
  }

  function Run(w: World, steps: seq<Step>): World
    decreases |steps|
  {
    if steps == [] then w else Run(Next(w, steps[0]), steps[1..])
  }

  function Sum(sessions: seq<Session>): int {
    if sessions == [] then 0 else Sum(sessions[..|sessions| - 1]) + sessions[|sessions| - 1].bytes
  }

  ghost predicate Inv(w: World) {
    && (forall k :: 0 <= k < |w.sessions| ==> SessionInv(w.sessions[k]))
    && w.server == Sum(w.sessions) <= MAX_SERVER_BYTES
  }

  lemma {:induction false} SumUpdate(sessions: seq<Session>, k: nat, s: Session)
    requires k < |sessions|
    ensures Sum(sessions[k := s]) == Sum(sessions) - sessions[k].bytes + s.bytes
  {
    var init, n := sessions[..|sessions| - 1], |sessions| - 1;
    if k < n {
      SumUpdate(init, k, s);
      assert sessions[k := s][..n] == init[k := s];
    } else {
      assert sessions[k := s][..n] == init;
    }
  }

  lemma NextKeeps(w: World, step: Step)
    requires Inv(w)
    ensures Inv(Next(w, step))
  {
    hide SessionInv;
    hide Apply;
    match step
    case Open =>
      assert SessionInv(NewSession) by { FreshSession(); }
      assert (w.sessions + [NewSession])[..|w.sessions|] == w.sessions;
    case Act(k, a) =>
      if k < |w.sessions| {
        var b := Books(w.sessions[k], w.server);
        ApplyKeeps(b, a);
        SumUpdate(w.sessions, k, Apply(b, a).session);
      }
  }

  lemma FreshSession()
    ensures SessionInv(NewSession)
  {
  }

  /** Any run of any number of sessions keeps both counters exact and inside their limits. */
  lemma {:induction false} RunKeeps(w: World, steps: seq<Step>)
    requires Inv(w)
    ensures Inv(Run(w, steps))
    decreases |steps|
  {
    hide Inv;
    hide Next;
    if steps != [] {
      NextKeeps(w, steps[0]);
      RunKeeps(Next(w, steps[0]), steps[1..]);
    }
  }
}
