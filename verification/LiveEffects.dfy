/** A poll that nothing comes between shows its pane what its terminal shows. */
module LiveEffects {
  import opened LiveDelta
  import opened BaselineCache
  import opened LiveScreen
  import opened LiveRuns

  /** The answer a pane gets from terminal k. */
  lemma SnapshotShows(ts: seq<Terminal>, k: nat, held: Option<Frame>, observed: nat, base: Option<Baseline>, hash: Row -> Hash)
    requires Injective(hash) && k < |ts| && History(ts[k]) && (base.Some? ==> Genuine(ts, base.value, hash))
    requires observed != 0 ==> held.Some? && held.value.revision == observed && observed < |ts[k].shown|
                               && held.value.screen == ts[k].shown[observed]
    ensures var r := Snapshot(k, ts[k], observed, base, hash);
            r.revision == ts[k].revision && Acceptable(held, r) && Merged(held, r) == ts[k].Display()
  {
    var t, r, s := ts[k], Snapshot(k, ts[k], observed, base, hash), ts[k].Display();
    SnapshotTruthful(ts, k, observed, base, hash);
    assert s == t.shown[t.revision];
    if r.full {
      FullShows(r, s);
      FullIgnored(held, r);
    } else {
      hide Merged;
      hide Acceptable;
      DeltaShows(held.value, r, t.shown[observed], s, hash);
    }
  }

  lemma FullIgnored(held: Option<Frame>, r: Response)
    requires r.full && Acceptable(None, r)
    ensures Acceptable(held, r) && Merged(held, r) == Merged(None, r)
  {
  }

  /** The poll's own sections, up to its answer. */
  lemma PollAnswers(w: World, i: nat, bootstrap: bool, keys: seq<string>, now: int, hash: Row -> Hash) returns (w': World)
    requires Inv(w, hash) && i < |w.panes| && w.panes[i].id in w.registered
    ensures w' == Next(Next(Next(w, Start(i, bootstrap, keys, now), hash), Resolve(|w.polls|), hash), Take(|w.polls|), hash)
    ensures Inv(w', hash) && w'.terminals == w.terminals && w'.panes == w.panes && |w'.polls| == |w.polls| + 1
    ensures var k, poll := w.registered[w.panes[i].id], w'.polls[|w.polls|];
            && k < |w.terminals| && poll.pane == i && poll.observed == Observed(w.panes[i], bootstrap)
            && (poll.base.Some? ==> Genuine(w.terminals, poll.base.value, hash))
            && poll.answer == Some(Answer(k, Snapshot(k, w.terminals[k], poll.observed, poll.base, hash), Describe(k, w.terminals[k], hash)))
  {
    hide Acquire;
    hide Snapshot;
    hide Describe;
    hide Genuine;
    hide History;
    var p, k := |w.polls|, w.registered[w.panes[i].id];
    var w1 := Next(w, Start(i, bootstrap, keys, now), hash);
    NextKeeps(w, Start(i, bootstrap, keys, now), hash);
    assert PollTrue(w1, w1.polls[p], hash);
    var w2 := Next(w1, Resolve(p), hash);
    NextKeeps(w1, Resolve(p), hash);
    w' := Next(w2, Take(p), hash);
    NextKeeps(w2, Take(p), hash);
  }

  /** What the poll observed is a screen its terminal showed. */
  ghost predicate Current(w: World, i: nat, bootstrap: bool)
    requires i < |w.panes|
  {
    bootstrap || w.panes[i].frame.None?
    || (&& Exact(w.terminals, w.panes[i]) && w.panes[i].id in w.registered
        && w.panes[i].frame.value.terminal == w.registered[w.panes[i].id])
  }

  /**
   A poll of a registered terminal, from its start to the delivery of its answer with nothing
   between, leaves the pane with exactly the screen and the revision the terminal has.
   */
  lemma PollShows(w: World, i: nat, bootstrap: bool, keys: seq<string>, keys': seq<string>, now: int, now': int, hash: Row -> Hash)
    requires Injective(hash) && Inv(w, hash) && i < |w.panes| && w.panes[i].id in w.registered && Current(w, i, bootstrap)
    ensures var p, k := |w.polls|, w.registered[w.panes[i].id];
            var w1 := Next(Next(Next(w, Start(i, bootstrap, keys, now), hash), Resolve(p), hash), Take(p), hash);
            var w' := Next(Next(Next(w1, LiveScreen.Offer(p, keys', now'), hash), Finish(p, now'), hash), Deliver(p), hash);
            && k < |w.terminals| && i < |w'.panes| && w'.terminals == w.terminals
            && w'.panes[i] == Pane(w.panes[i].id, Some(Frame(k, w.terminals[k].revision, w.terminals[k].Display())))
  {
    hide Next;
    hide Snapshot;
    hide Describe;
    hide Acceptable;
    hide Merged;
    hide Genuine;
    var p, k := |w.polls|, w.registered[w.panes[i].id];
    var w1 := PollAnswers(w, i, bootstrap, keys, now, hash);
    var poll := w1.polls[p];
    assert History(w.terminals[k]);
    ObservedShown(w, i, bootstrap);
    SnapshotShows(w.terminals, k, w.panes[i].frame, poll.observed, poll.base, hash);
    hide Inv;
    AnswerArrives(w1, p, keys', now', hash);
  }

  lemma ObservedShown(w: World, i: nat, bootstrap: bool)
    requires i < |w.panes| && w.panes[i].id in w.registered && Current(w, i, bootstrap)
    requires w.registered[w.panes[i].id] < |w.terminals|
    ensures var k, observed, held := w.registered[w.panes[i].id], Observed(w.panes[i], bootstrap), w.panes[i].frame;
            observed != 0 ==> held.Some? && held.value.revision == observed && observed < |w.terminals[k].shown|
                              && held.value.screen == w.terminals[k].shown[observed]
  {
  }

  /** An acceptable answer, once offered and its pin given back, is what the pane shows. */
  lemma AnswerArrives(w1: World, p: nat, keys: seq<string>, now: int, hash: Row -> Hash)
    requires p < |w1.polls| && w1.polls[p].answer.Some? && w1.polls[p].pane < |w1.panes|
    requires Acceptable(w1.panes[w1.polls[p].pane].frame, w1.polls[p].answer.value.response)
    ensures var w', i, a := Next(Next(Next(w1, LiveScreen.Offer(p, keys, now), hash), Finish(p, now), hash), Deliver(p), hash),
                            w1.polls[p].pane, w1.polls[p].answer.value;
            && w'.terminals == w1.terminals && |w'.panes| == |w1.panes|
            && w'.panes[i] == Pane(w1.panes[i].id, Some(Frame(a.terminal, a.response.revision, Merged(w1.panes[i].frame, a.response))))
  {
    hide Acceptable;
    hide Merged;
    hide BaselineCache.Offer;
    hide Release;
    var poll := w1.polls[p];
    var w2 := Next(w1, LiveScreen.Offer(p, keys, now), hash);
    assert |w2.polls| == |w1.polls| && w2.polls[p] == poll.(offered := true) && w2.panes == w1.panes && w2.terminals == w1.terminals;
    FinishLeaves(w2, p, now, hash);
    var w3 := Next(w2, Finish(p, now), hash);
    assert CanDeliver(w3, p);
    assert Next(w3, Deliver(p), hash) == DeliverAnswer(w3, p);
  }

  lemma FinishLeaves(w: World, p: nat, now: int, hash: Row -> Hash)
    requires p < |w.polls|
    ensures var w' := Next(w, Finish(p, now), hash);
            && |w'.polls| == |w.polls| && w'.polls[p] == w.polls[p].(pin := None) && w'.panes == w.panes && w'.terminals == w.terminals
  {
    hide Release;
  }

  // ------------------------------------------------------------------ the terminal's own steps

  /** A write, a resize or a restart is one revision, whose screen is on record; the latter two start a new generation. */
  lemma ChangesShow(w: World, k: nat, screen: Screen, hash: Row -> Hash)
    requires k < |w.terminals| && w.terminals[k].live.Some? && WellSized(screen)
    ensures forall step :: step == Write(k, screen) || step == Resize(k, screen) || step == Restart(k, screen) ==>
              var w', t := Next(w, step, hash), w.terminals[k];
              && |w'.terminals| == |w.terminals| && w'.registered == w.registered && w'.panes == w.panes
              && w'.terminals[k].Display() == screen && w'.terminals[k].revision == t.revision + 1
              && w'.terminals[k].shown == t.shown + [screen]
              && w'.terminals[k].generation == t.generation + if step.Write? then 0 else 1
  {
  }

  /** Creating registers a new object under its ID, removing takes the ID away and leaves the object. */
  lemma RegistryActs(w: World, id: string, live: Option<Screen>, hash: Row -> Hash)
    requires live.Some? ==> WellSized(live.value)
    ensures var w' := Next(w, Create(id, live), hash);
            if id == "" || id in w.registered then w' == w
            else && |w'.terminals| == |w.terminals| + 1 && w'.registered == w.registered[id := |w.terminals|]
                 && w'.terminals[|w.terminals|].id == id && w'.terminals[|w.terminals|].revision == 0
                 && w'.terminals[|w.terminals|].Display() == (if live.Some? then live.value else BLANK)
    ensures var w' := Next(w, Remove(id), hash); id !in w'.registered && w'.terminals == w.terminals
  {
  }
}
