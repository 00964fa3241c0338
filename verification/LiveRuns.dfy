/** Every run of the live-screen protocol: when panes stay exact, and the run where one does not. */
module LiveRuns {
  import opened LiveDelta
  import opened BaselineCache
  import opened LiveScreen

  // ------------------------------------------------------------------ what every step keeps

  lemma CacheChanges(w: World, b: Books, extra: Option<Baseline>, hash: Row -> Hash)
    requires Inv(w, hash) && Screens(w.books.session, b.session, extra)
    requires extra.Some? ==> Genuine(w.terminals, extra.value, hash)
    ensures Inv(w.(books := b), hash)
  {
    hide History;
    hide Genuine;
    hide PollTrue;
    var w' := w.(books := b);
    forall p | 0 <= p < |w'.polls| ensures PollTrue(w', w'.polls[p], hash) {
      assert PollTrue(w, w.polls[p], hash);
      SamePoll(w, w', w.polls[p], hash);
    }
  }

  lemma SamePoll(w: World, w': World, p: PollState, hash: Row -> Hash)
    requires PollTrue(w, p, hash) && w'.terminals == w.terminals
    requires |w.panes| == |w'.panes| && forall i :: 0 <= i < |w.panes| ==> w'.panes[i].id == w.panes[i].id
    ensures PollTrue(w', p, hash)
  {
    hide Genuine;
    hide Truthful;
    if p.answer.Some? { TruthfulKnown(w.terminals, p.answer.value.terminal, p.answer.value.response, hash); }
  }

  lemma StartKeeps(w: World, i: nat, bootstrap: bool, keys: seq<string>, now: int, hash: Row -> Hash)
    requires Inv(w, hash) && i < |w.panes|
    ensures Inv(StartPoll(w, i, bootstrap, keys, now), hash)
  {
    hide History;
    hide Genuine;
    hide Acquire;
    var observed := Observed(w.panes[i], bootstrap);
    AcquireScreens(w.books, w.panes[i].id, observed, keys, now);
    var b := Acquire(w.books, w.panes[i].id, observed, keys, now).books;
    CacheChanges(w, b, None, hash);
    var w1, w' := w.(books := b), StartPoll(w, i, bootstrap, keys, now);
    forall p | 0 <= p < |w'.polls| ensures PollTrue(w', w'.polls[p], hash) {
      if p < |w.polls| {
        assert PollTrue(w1, w1.polls[p], hash);
        hide PollTrue;
        SamePoll(w1, w', w1.polls[p], hash);
      }
    }
  }

  /** A snapshot tells the truth about the terminal it was taken of. */
  lemma SnapshotTruthful(ts: seq<Terminal>, k: nat, observed: nat, base: Option<Baseline>, hash: Row -> Hash)
    requires k < |ts| && History(ts[k]) && (base.Some? ==> Genuine(ts, base.value, hash))
    ensures Truthful(ts, k, Snapshot(k, ts[k], observed, base, hash), hash)
    ensures Genuine(ts, Describe(k, ts[k], hash), hash)
  {
    hide DeltaTo;
    var t := ts[k];
    assert WellSized(t.shown[t.revision]);
    if Deltable(k, t, observed, base) {
      InRange(base.value.rowHashes, Hashes(t.live.value.rows, hash));
    }
  }

  /** With a frame the terminal showed at the observed revision, of the same generation and shape, only new rows are sent. */
  lemma SnapshotIsDelta(ts: seq<Terminal>, k: nat, base: Baseline, hash: Row -> Hash, d: nat)
    requires k < |ts| && History(ts[k]) && ts[k].live.Some? && Genuine(ts, base, hash)
    requires base.terminal == k && 0 < base.revision && base.generation == ts[k].generation
    requires base.size == ts[k].live.value.size && base.altScreen == ts[k].live.value.altScreen
    requires d < |ts[k].live.value.rows|
    ensures var r := Snapshot(k, ts[k], base.revision, Some(base), hash);
            !r.full && (d in r.changed <==> hash(ts[k].live.value.rows[d]) !in base.rowHashes)
  {
    var t := ts[k];
    assert WellSized(t.shown[t.revision]) && WellSized(t.shown[base.revision]);
    var current := Hashes(t.live.value.rows, hash);
    DeltaGood(base.rowHashes, current, |current|);
    ReplacedRows(DeltaOf(base.rowHashes, current), base.rowHashes, current, d);
    hide DeltaTo;
    hide GoodDelta;
  }

  lemma TakeKeeps(w: World, p: nat, hash: Row -> Hash)
    requires Inv(w, hash) && CanTake(w, p)
    ensures Inv(TakeSnapshot(w, p, hash), hash)
  {
    hide Genuine;
    hide Truthful;
    hide Snapshot;
    hide Describe;
    hide History;
    var w', k := TakeSnapshot(w, p, hash), w.polls[p].terminal.value;
    assert PollTrue(w, w.polls[p], hash);
    assert History(w.terminals[k]);
    SnapshotTruthful(w.terminals, k, w.polls[p].observed, w.polls[p].base, hash);
    assert PollTrue(w', w'.polls[p], hash);
    hide PollTrue;
    forall q | 0 <= q < |w'.polls| ensures PollTrue(w', w'.polls[q], hash) {
      if q != p { SamePoll(w, w', w.polls[q], hash); }
    }
  }

  lemma DeliverKeeps(w: World, p: nat, hash: Row -> Hash)
    requires Inv(w, hash) && CanDeliver(w, p)
    ensures Inv(DeliverAnswer(w, p), hash)
  {
    hide Genuine;
    hide PollTrue;
    hide History;
    hide Acceptable;
    hide Merged;
    var w' := DeliverAnswer(w, p);
    forall q | 0 <= q < |w'.polls| ensures PollTrue(w', w'.polls[q], hash) { SamePoll(w, w', w.polls[q], hash); }
  }

  lemma FinishKeeps(w: World, p: nat, now: int, hash: Row -> Hash)
    requires Inv(w, hash) && p < |w.polls| && w.polls[p].pin.Some?
    ensures Inv(Next(w, Finish(p, now), hash), hash)
  {
    hide Genuine;
    hide History;
    hide Truthful;
    var b := Release(w.books, w.polls[p].pin.value, now);
    CacheChanges(w, b, None, hash);
    var w1, w' := w.(books := b), Next(w, Finish(p, now), hash);
    forall q | 0 <= q < |w'.polls| ensures PollTrue(w', w'.polls[q], hash) {
      assert PollTrue(w1, w1.polls[q], hash);
    }
  }

  lemma ResolveKeeps(w: World, p: nat, hash: Row -> Hash)
    requires Inv(w, hash)
    ensures Inv(Next(w, Resolve(p), hash), hash)
  {
    hide Genuine;
    hide History;
    hide Truthful;
    var w' := Next(w, Resolve(p), hash);
    forall q | 0 <= q < |w'.polls| ensures PollTrue(w', w'.polls[q], hash) {
      assert PollTrue(w, w.polls[q], hash);
    }
  }

  lemma RemoveKeeps(w: World, id: string, hash: Row -> Hash)
    requires Inv(w, hash)
    ensures Inv(Next(w, Remove(id), hash), hash)
  {
    hide Genuine;
    hide History;
    hide PollTrue;
    var w' := Next(w, Remove(id), hash);
    forall q | 0 <= q < |w'.polls| ensures PollTrue(w', w'.polls[q], hash) { SamePoll(w, w', w.polls[q], hash); }
  }

  lemma CreateKeeps(w: World, id: string, live: Option<Screen>, hash: Row -> Hash)
    requires Inv(w, hash)
    ensures Inv(Next(w, Create(id, live), hash), hash) && Grow(w.terminals, Next(w, Create(id, live), hash).terminals)
  {
    var w' := Next(w, Create(id, live), hash);
    if w' != w {
      assert History(w'.terminals[|w.terminals|]);
      assert forall k :: 0 <= k < |w.terminals| ==> w'.terminals[k] == w.terminals[k] && History(w.terminals[k]);
      hide History;
      hide Genuine;
      hide PollTrue;
      WorldGrows(w, w', hash);
    }
  }

  lemma GrowSelf(ts: seq<Terminal>)
    ensures Grow(ts, ts)
  {
  }

  /** The cache changes no terminal and forgets no screen. */
  lemma SweepKeeps(w: World, keys: seq<string>, now: int, hash: Row -> Hash)
    requires Inv(w, hash)
    ensures Inv(Next(w, LiveScreen.Expire(keys, now), hash), hash)
    ensures Inv(Next(w, LiveScreen.Teardown(keys), hash), hash)
  {
    hide Inv;
    hide Prune;
    hide ClearOver;
    PruneScreens(w.books, keys, now);
    CacheChanges(w, Apply(w.books, BaselineCache.Expire(keys, now)), None, hash);
    ClearScreens(w.books.(session := w.books.session.(closed := true)), keys);
    CacheChanges(w, Apply(w.books, BaselineCache.Teardown(keys)), None, hash);
  }

  /** Every step keeps what the server side guarantees, and no screen that was shown is forgotten. */
  lemma NextKeeps(w: World, step: Step, hash: Row -> Hash)
    requires Inv(w, hash)
    ensures Inv(Next(w, step, hash), hash) && Grow(w.terminals, Next(w, step, hash).terminals)
  {
    hide Inv;
    hide Grow;
    hide Acquire;
    hide Apply;
    hide BaselineCache.Offer;
    hide BaselineCache.Release;
    hide Snapshot;
    hide Describe;
    hide Acceptable;
    hide Changed;
    GrowSelf(w.terminals);
    match step
    case Create(id, live) => CreateKeeps(w, id, live, hash);
    case Write(k, screen) => if k < |w.terminals| && WellSized(screen) { ChangedGrows(w, k, screen, 0, hash); }
    case Resize(k, screen) => if k < |w.terminals| && WellSized(screen) { ChangedGrows(w, k, screen, 1, hash); }
    case Restart(k, screen) => if k < |w.terminals| && WellSized(screen) { ChangedGrows(w, k, screen, 1, hash); }
    case Remove(id) => RemoveKeeps(w, id, hash);
    case OpenPane(id) => OpenKeeps(w, id, hash);
    case Start(i, bootstrap, keys, now) => if i < |w.panes| { StartKeeps(w, i, bootstrap, keys, now, hash); }
    case Resolve(p) => ResolveKeeps(w, p, hash);
    case Take(p) => if CanTake(w, p) { TakeKeeps(w, p, hash); }
    case Offer(p, keys, now) => OfferKeepsAll(w, p, keys, now, hash);
    case Finish(p, now) => if p < |w.polls| && w.polls[p].pin.Some? { FinishKeeps(w, p, now, hash); }
    case Deliver(p) => if CanDeliver(w, p) { DeliverKeeps(w, p, hash); }
    case Expire(keys, now) => SweepKeeps(w, keys, now, hash);
    case Teardown(keys) => SweepKeeps(w, keys, 0, hash);
    case Elsewhere(server) => CacheChanges(w, w.books.(server := server), None, hash);
  }

  lemma OpenKeeps(w: World, id: string, hash: Row -> Hash)
    requires Inv(w, hash)
    ensures Inv(Next(w, OpenPane(id), hash), hash)
  {
    hide History;
    hide Genuine;
    hide PollTrue;
    WorldGrows(w, Next(w, OpenPane(id), hash), hash);
  }

  lemma OfferKeepsAll(w: World, p: nat, keys: seq<string>, now: int, hash: Row -> Hash)
    requires Inv(w, hash)
    ensures Inv(Next(w, LiveScreen.Offer(p, keys, now), hash), hash)
  {
    hide History;
    hide Genuine;
    hide Truthful;
    hide BaselineCache.Offer;
    if CanOffer(w, p) {
      assert PollTrue(w, w.polls[p], hash);
      var screen := w.polls[p].answer.value.baseline;
      OfferScreens(w.books, w.panes[w.polls[p].pane].id, screen, keys, now);
      var b := BaselineCache.Offer(w.books, w.panes[w.polls[p].pane].id, screen, keys, now);
      CacheChanges(w, b, Some(screen), hash);
      var w1, w' := w.(books := b), OfferAnswer(w, p, keys, now);
      forall q | 0 <= q < |w'.polls| ensures PollTrue(w', w'.polls[q], hash) {
        assert PollTrue(w1, w1.polls[q], hash);
      }
    }
  }

  // ------------------------------------------------------------------ panes stay exact

  /** A delta about one terminal object is about to be merged into a frame of another. */
  ghost predicate Crossed(w: World, step: Step) {
    && step.Deliver? && step.p < |w.polls|
    && var poll := w.polls[step.p];
       && poll.answer.Some? && poll.pane < |w.panes| && !poll.answer.value.response.full
       && w.panes[poll.pane].frame.Some?
       && w.panes[poll.pane].frame.value.terminal != poll.answer.value.terminal
  }

  lemma MergeExact(ts: seq<Terminal>, pane: Pane, a: Answer, hash: Row -> Hash)
    requires Injective(hash) && Exact(ts, pane)
    requires Truthful(ts, a.terminal, a.response, hash) && ts[a.terminal].id == pane.id
    requires Acceptable(pane.frame, a.response)
    requires !a.response.full ==> pane.frame.value.terminal == a.terminal
    ensures Exact(ts, pane.(frame := Some(Frame(a.terminal, a.response.revision, Merged(pane.frame, a.response)))))
  {
    hide Applied;
    hide Applicable;
    var r, s := a.response, ts[a.terminal].shown[a.response.revision];
    if r.full {
      FullShows(r, s);
    } else {
      var base := ts[a.terminal].shown[r.base];
      assert pane.frame.value.screen == base;
      hide DeltaFor;
      DeltaShows(pane.frame.value, r, base, s, hash);
    }
  }

  lemma DeliverExact(w: World, p: nat, hash: Row -> Hash)
    requires Injective(hash) && Inv(w, hash) && AllExact(w) && !Crossed(w, Deliver(p)) && CanDeliver(w, p)
    ensures AllExact(DeliverAnswer(w, p))
  {
    hide Acceptable;
    hide Merged;
    hide Exact;
    hide Truthful;
    hide Genuine;
    hide History;
    var i, a := w.polls[p].pane, w.polls[p].answer.value;
    assert PollTrue(w, w.polls[p], hash);
    if Acceptable(w.panes[i].frame, a.response) {
      assert !a.response.full ==> w.panes[i].frame.Some? by {
        AcceptsHeld(w.panes[i].frame, a.response);
      }
      MergeExact(w.terminals, w.panes[i], a, hash);
    }
  }

  lemma AcceptsHeld(held: Option<Frame>, r: Response)
    requires Acceptable(held, r)
    ensures !r.full ==> held.Some?
  {
  }

  lemma PanesMove(w: World, step: Step, hash: Row -> Hash)
    requires AllExact(w) && !step.Deliver? && Grow(w.terminals, Next(w, step, hash).terminals)
    ensures AllExact(Next(w, step, hash))
  {
    hide Exact;
    hide Grow;
    hide Snapshot;
    hide Apply;
    hide Release;
    hide Acquire;
    hide BaselineCache.Offer;
    var w' := Next(w, step, hash);
    forall i | 0 <= i < |w'.panes| ensures Exact(w'.terminals, w'.panes[i]) {
      if i < |w.panes| {
        assert w'.panes[i] == w.panes[i];
        ExactGrows(w.terminals, w'.terminals, w.panes[i]);
      } else {
        EmptyPane(w'.terminals, w'.panes[i]);
      }
    }
  }

  lemma EmptyPane(ts: seq<Terminal>, pane: Pane)
    requires pane.frame.None?
    ensures Exact(ts, pane)
  {
  }

  lemma NextExact(w: World, step: Step, hash: Row -> Hash)
    requires Injective(hash) && Inv(w, hash) && AllExact(w) && !Crossed(w, step)
    ensures AllExact(Next(w, step, hash))
  {
    hide Inv;
    hide AllExact;
    hide DeliverAnswer;
    NextKeeps(w, step, hash);
    if step.Deliver? {
      if CanDeliver(w, step.p) { DeliverExact(w, step.p, hash); }
    } else {
      hide Next;
      PanesMove(w, step, hash);
    }
  }

  /** No step of the run merges a delta about one terminal into a frame of another. */
  ghost predicate Straight(w: World, steps: seq<Step>, hash: Row -> Hash)
    decreases |steps|
  {
    steps == [] || (!Crossed(w, steps[0]) && Straight(Next(w, steps[0], hash), steps[1..], hash))
  }

  lemma {:induction false} RunKeeps(w: World, steps: seq<Step>, hash: Row -> Hash)
    requires Inv(w, hash)
    ensures Inv(Run(w, steps, hash), hash)
    decreases |steps|
  {
    hide Inv;
    hide Next;
    if steps != [] {
      NextKeeps(w, steps[0], hash);
      RunKeeps(Next(w, steps[0], hash), steps[1..], hash);
    }
  }

  lemma {:induction false} StraightKeepsExact(w: World, steps: seq<Step>, hash: Row -> Hash)
    requires Injective(hash) && Inv(w, hash) && AllExact(w) && Straight(w, steps, hash)
    ensures AllExact(Run(w, steps, hash))
    decreases |steps|
  {
    hide Inv;
    hide Next;
    hide AllExact;
    hide Crossed;
    if steps != [] {
      NextKeeps(w, steps[0], hash);
      NextExact(w, steps[0], hash);
      StraightKeepsExact(Next(w, steps[0], hash), steps[1..], hash);
    }
  }

  /** Every pane shows exactly the server's screen at its revision, in every straight run. */
  lemma StraightRunsExact(steps: seq<Step>, hash: Row -> Hash)
    requires Injective(hash) && Straight(START, steps, hash)
    ensures AllExact(Run(START, steps, hash))
  {
    StraightKeepsExact(START, steps, hash);
  }

  // ------------------------------------------------------------------ the IDs that were created

  /** The IDs of all terminals ever created, in order. */
  function CreatedIds(w: World): (ids: seq<string>)
    ensures |ids| == |w.terminals| && forall k :: 0 <= k < |ids| ==> ids[k] == w.terminals[k].id
  {
    seq(|w.terminals|, k requires 0 <= k < |w.terminals| => w.terminals[k].id)
  }

  ghost predicate Distinct(ids: seq<string>) {
    forall j, k :: 0 <= j < k < |ids| ==> ids[j] != ids[k]
  }

  lemma {:induction false} RunGrows(w: World, steps: seq<Step>, hash: Row -> Hash)
    requires Inv(w, hash)
    ensures Grow(w.terminals, Run(w, steps, hash).terminals)
    decreases |steps|
  {
    hide Inv;
    hide Next;
    if steps == [] {
      GrowSelf(w.terminals);
    } else {
      NextKeeps(w, steps[0], hash);
      RunGrows(Next(w, steps[0], hash), steps[1..], hash);
      GrowTwice(w.terminals, Next(w, steps[0], hash).terminals, Run(w, steps, hash).terminals);
    }
  }

  lemma GrowTwice(a: seq<Terminal>, b: seq<Terminal>, c: seq<Terminal>)
    requires Grow(a, b) && Grow(b, c)
    ensures Grow(a, c)
  {
    forall k | 0 <= k < |a| ensures c[k].id == a[k].id && a[k].shown <= c[k].shown {
      assert a[k].shown <= b[k].shown && b[k].shown <= c[k].shown;
    }
  }

  lemma DistinctBefore(w: World, w': World)
    requires Grow(w.terminals, w'.terminals) && Distinct(CreatedIds(w'))
    ensures Distinct(CreatedIds(w))
  {
  }

  /** A pane's frame and the answers to its polls come from terminals with its ID. */
  lemma DistinctNeverCrosses(w: World, step: Step, hash: Row -> Hash)
    requires Inv(w, hash) && AllExact(w) && Distinct(CreatedIds(w))
    ensures !Crossed(w, step)
  {
    hide Genuine;
    hide History;
    if step.Deliver? && step.p < |w.polls| {
      var poll := w.polls[step.p];
      assert PollTrue(w, poll, hash) && Exact(w.terminals, w.panes[poll.pane]);
      if poll.answer.Some? && w.panes[poll.pane].frame.Some? {
        var j, k := w.panes[poll.pane].frame.value.terminal, poll.answer.value.terminal;
        TruthfulKnown(w.terminals, k, poll.answer.value.response, hash);
        assert CreatedIds(w)[j] == CreatedIds(w)[k];
        assert j == k;
      }
    }
  }

  lemma {:induction false} DistinctIsStraight(w: World, steps: seq<Step>, hash: Row -> Hash)
    requires Injective(hash) && Inv(w, hash) && AllExact(w) && Distinct(CreatedIds(Run(w, steps, hash)))
    ensures Straight(w, steps, hash)
    decreases |steps|
  {
    hide Inv;
    hide Next;
    hide AllExact;
    hide Crossed;
    hide Distinct;
    hide Grow;
    if steps != [] {
      RunGrows(w, steps, hash);
      DistinctBefore(w, Run(w, steps, hash));
      NextKeeps(w, steps[0], hash);
      DistinctNeverCrosses(w, steps[0], hash);
      NextExact(w, steps[0], hash);
      DistinctIsStraight(Next(w, steps[0], hash), steps[1..], hash);
    }
  }

  /** While no ID is used twice, every pane is exact after every run. */
  lemma FreshIdsExact(steps: seq<Step>, hash: Row -> Hash)
    requires Injective(hash) && Distinct(CreatedIds(Run(START, steps, hash)))
    ensures AllExact(Run(START, steps, hash))
  {
    DistinctIsStraight(START, steps, hash);
    StraightRunsExact(steps, hash);
  }
}
