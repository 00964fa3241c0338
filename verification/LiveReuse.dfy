/** What reusing a terminal ID does: for every sequence of created IDs, exactly when all panes of all runs stay exact. */
module LiveReuse {
  import opened LiveDelta
  import opened BaselineCache
  import opened LiveScreen
  import opened LiveRuns

  // ------------------------------------------------------------------ building runs

  lemma {:induction false} RunSnoc(w: World, steps: seq<Step>, step: Step, hash: Row -> Hash)
    ensures Run(w, steps + [step], hash) == Next(Run(w, steps, hash), step, hash)
    decreases |steps|
  {
    hide Next;
    if steps == [] {
      assert steps + [step] == [step] && [step][1..] == [];
      assert Run(w, [step], hash) == Run(Next(w, step, hash), [step][1..], hash);
    } else {
      assert (steps + [step])[1..] == steps[1..] + [step];
      RunSnoc(Next(w, steps[0], hash), steps[1..], step, hash);
    }
  }

  lemma {:induction false} RunConcat(w: World, xs: seq<Step>, ys: seq<Step>, hash: Row -> Hash)
    ensures Run(w, xs + ys, hash) == Run(Run(w, xs, hash), ys, hash)
    decreases |xs|
  {
    hide Next;
    if xs == [] {
      assert xs + ys == ys;
    } else {
      assert (xs + ys)[1..] == xs[1..] + ys;
      RunConcat(Next(w, xs[0], hash), xs[1..], ys, hash);
    }
  }

  /** One step more of a run under construction. */
  lemma Then(start: World, steps: seq<Step>, w: World, step: Step, hash: Row -> Hash)
    returns (steps': seq<Step>, w': World)
    requires Run(start, steps, hash) == w
    ensures Run(start, steps', hash) == w' && w' == Next(w, step, hash)
  {
    hide Next;
    hide Run;
    RunSnoc(start, steps, step, hash);
    steps', w' := steps + [step], Next(w, step, hash);
  }

  lemma NoSteps(w: World, hash: Row -> Hash)
    ensures Run(w, [], hash) == w
  {
  }

  // ------------------------------------------------------------------ terminals that show one row

  function One(row: Row): Screen {
    Screen(Size(1, 1), [row], false, 0)
  }

  /** A terminal that has shown one row all along. */
  function Steady(id: string, row: Row, revision: nat): (t: Terminal)
    ensures t.live == Some(One(row)) && t.id == id && t.revision == revision && t.generation == 0
    ensures |t.shown| == revision + 1 && forall r :: 0 <= r <= revision ==> t.shown[r] == One(row)
  {
    Terminal(id, Some(One(row)), revision, 0, seq(revision + 1, _ => One(row)))
  }

  lemma SteadySteps(id: string, row: Row, n: nat)
    ensures Terminal(id, Some(One(row)), 0, 0, [One(row)]) == Steady(id, row, 0)
    ensures Changed(Steady(id, row, n), One(row), 0) == Steady(id, row, n + 1)
  {
    assert [One(row)] == Steady(id, row, 0).shown;
    assert Steady(id, row, n).shown + [One(row)] == Steady(id, row, n + 1).shown;
  }

  /** Only the terminals and their registration differ. */
  ghost predicate SameElse(w: World, w': World) {
    w' == w.(terminals := w'.terminals, registered := w'.registered)
  }

  /** Terminals are created under the given IDs, each removed first if it is still registered. */
  lemma {:induction false} CreateMany(w: World, ids: seq<string>, row: Row, hash: Row -> Hash)
    returns (steps: seq<Step>, w': World)
    requires forall k :: 0 <= k < |ids| ==> ids[k] != ""
    ensures Run(w, steps, hash) == w' && SameElse(w, w')
    ensures |w'.terminals| == |w.terminals| + |ids| && w.terminals <= w'.terminals
    ensures forall k :: 0 <= k < |ids| ==> w'.terminals[|w.terminals| + k] == Steady(ids[k], row, 0)
    ensures ids != [] ==> ids[|ids| - 1] in w'.registered && w'.registered[ids[|ids| - 1]] == |w'.terminals| - 1
    decreases |ids|
  {
    hide Run;
    if ids == [] {
      NoSteps(w, hash);
      steps, w' := [], w;
    } else {
      var id := ids[|ids| - 1];
      var s0, w0 := CreateMany(w, ids[..|ids| - 1], row, hash);
      hide SameElse;
      var s1, w1 := Then(w, s0, w0, Remove(id), hash);
      SteadySteps(id, row, 0);
      steps, w' := Then(w, s1, w1, Create(id, Some(One(row))), hash);
      assert w'.terminals == w0.terminals + [Steady(id, row, 0)];
      assert SameElse(w, w') by { ElseTwice(w, w0, w'); }
    }
  }

  lemma ElseTwice(w: World, w0: World, w': World)
    requires SameElse(w, w0)
    requires w' == w0.(terminals := w'.terminals, registered := w'.registered)
    ensures SameElse(w, w')
  {
  }

  // ------------------------------------------------------------------ the first terminal's frame

  function Fingerprint(k: nat, row: Row, revision: nat, hash: Row -> Hash): Baseline {
    Baseline(k, revision, 0, Size(1, 1), [hash(row)], false)
  }

  lemma Fingerprints(k: nat, id: string, row: Row, revision: nat, hash: Row -> Hash)
    ensures Describe(k, Steady(id, row, revision), hash) == Fingerprint(k, row, revision, hash)
  {
    assert Hashes([row], hash) == [hash(row)];
  }

  /** One offer, not confirmed yet. */
  function OneOffer(id: string, d: Baseline): Books {
    Books(Session(map[id := Entry(None, Some(0))], [Cached(d, 72, 0, Some(TTL))], 72, false, multiset{}), 72)
  }

  lemma FirstOffer(id: string, d: Baseline)
    requires id != "" && |d.rowHashes| == 1
    ensures BaselineCache.Offer(Books(NewSession, 0), id, d, [], 0) == OneOffer(id, d)
  {
    assert Weight(d) == 72;
  }

  function FullAnswer(k: nat, id: string, row: Row, hash: Row -> Hash): Answer {
    Answer(k, FullResponse(Steady(id, row, 1), 0), Fingerprint(k, row, 1, hash))
  }

  lemma FirstSnapshot(k: nat, id: string, row: Row, hash: Row -> Hash)
    ensures Snapshot(k, Steady(id, row, 1), 0, None, hash) == FullAnswer(k, id, row, hash).response
    ensures Describe(k, Steady(id, row, 1), hash) == FullAnswer(k, id, row, hash).baseline
  {
    Fingerprints(k, id, row, 1, hash);
  }

  lemma FullMerge(k: nat, id: string, row: Row, hash: Row -> Hash)
    ensures var r := FullAnswer(k, id, row, hash).response;
            r.revision == 1 && forall held :: Acceptable(held, r) && Merged(held, r) == One(row)
  {
    var r := FullAnswer(k, id, row, hash).response;
    FullShows(r, One(row));
    forall held ensures Acceptable(held, r) && Merged(held, r) == One(row) { FullIgnores(held, r); }
  }

  lemma FullIgnores(held: Option<Frame>, r: Response)
    requires r.full && Acceptable(None, r)
    ensures Acceptable(held, r) && Merged(held, r) == Merged(None, r)
  {
  }

  /** A bootstrap poll of pane 0 whose answer is offered. */
  function Bootstrapped(k: nat, id: string, row: Row, hash: Row -> Hash): PollState {
    PollState(0, 0, None, None, Some(k), Some(FullAnswer(k, id, row, hash)), true)
  }

  /** Pane p asks for the whole screen of the registered terminal k, and the answer is offered. */
  lemma Bootstrap(start: World, steps: seq<Step>, w: World, k: nat, id: string, row: Row, hash: Row -> Hash)
    returns (steps': seq<Step>, w': World)
    requires Run(start, steps, hash) == w && |w.panes| == 1 && w.panes[0].id == id
    requires k < |w.terminals| && w.terminals[k] == Steady(id, row, 0) && id in w.registered && w.registered[id] == k
    ensures Run(start, steps', hash) == w'
    ensures w' == w.(terminals := w.terminals[k := Steady(id, row, 1)], polls := w.polls + [Bootstrapped(k, id, row, hash)],
                     books := BaselineCache.Offer(w.books, id, Fingerprint(k, row, 1, hash), [], 0))
  {
    hide Run;
    hide BaselineCache.Offer;
    hide Snapshot;
    hide Describe;
    SteadySteps(id, row, 0);
    FirstSnapshot(k, id, row, hash);
    var p := |w.polls|;
    var s1, w1 := Then(start, steps, w, Write(k, One(row)), hash);
    var s2, w2 := Then(start, s1, w1, Start(0, true, [], 0), hash);
    assert w2.polls == w.polls + [PollState(0, 0, None, None, None, None, false)] && w2.books == w.books;
    var s3, w3 := Then(start, s2, w2, Resolve(p), hash);
    assert w3.polls[p] == PollState(0, 0, None, None, Some(k), None, false);
    var s4, w4 := Then(start, s3, w3, Take(p), hash);
    assert w4.polls[p] == PollState(0, 0, None, None, Some(k), Some(FullAnswer(k, id, row, hash)), false);
    steps', w' := Then(start, s4, w4, LiveScreen.Offer(p, [], 0), hash);
    assert w'.polls == w.polls + [Bootstrapped(k, id, row, hash)];
  }

  /** Pane 0 holds the first frame of terminal i. */
  lemma ShowFirst(start: World, steps: seq<Step>, w: World, i: nat, id: string, a: Row, hash: Row -> Hash)
    returns (steps': seq<Step>, w': World)
    requires Run(start, steps, hash) == w && w.books == Books(NewSession, 0) && w.panes == [] && w.polls == [] && id != ""
    requires i < |w.terminals| && w.terminals[i] == Steady(id, a, 0) && id in w.registered && w.registered[id] == i
    ensures Run(start, steps', hash) == w'
    ensures w' == w.(terminals := w.terminals[i := Steady(id, a, 1)], books := OneOffer(id, Fingerprint(i, a, 1, hash)),
                     panes := [Pane(id, Some(Frame(i, 1, One(a))))], polls := [Bootstrapped(i, id, a, hash)])
  {
    hide Run;
    hide BaselineCache.Offer;
    hide Acceptable;
    hide Merged;
    var s1, w1 := Then(start, steps, w, OpenPane(id), hash);
    var s2, w2 := Bootstrap(start, s1, w1, i, id, a, hash);
    FirstOffer(id, Fingerprint(i, a, 1, hash));
    FullMerge(i, id, a, hash);
    steps', w' := Then(start, s2, w2, Deliver(0), hash);
  }

  // ------------------------------------------------------------------ the second terminal's frame

  /** A later offer of the same revision took the place of the first. */
  function TwoOffers(id: string, d: Baseline, d': Baseline): Books {
    Books(Session(map[id := Entry(None, Some(1))], [Cached(d, 0, 0, Some(TTL)), Cached(d', 72, 0, Some(TTL))], 72, false,
                  multiset{}), 72)
  }

  lemma SecondOffer(id: string, d: Baseline, d': Baseline)
    requires id != "" && |d'.rowHashes| == 1 && d.revision == d'.revision
    ensures BaselineCache.Offer(OneOffer(id, d), id, d', [], 0) == TwoOffers(id, d, d')
  {
    var b := OneOffer(id, d);
    assert Prune(b, [], 0) == b;
    var room := MakeRoom(b, id, d'.revision).value;
    assert room.session.entries == map[id := Entry(None, None)];
    assert room.session.cached == [Cached(d, 0, 0, Some(TTL))];
    assert Weight(d') == 72;
  }

  /** A client that holds revision 1 of the first terminal pins the second terminal's frame. */
  lemma PinsSecond(id: string, d: Baseline, d': Baseline)
    requires id != "" && d'.revision == 1
    ensures var got := Acquire(TwoOffers(id, d, d'), id, 1, [], 0);
            && got.held == Some(1) && |got.books.session.cached| == 2 && got.books.session.cached[1].screen == d'
  {
    var b := TwoOffers(id, d, d');
    assert Prune(b, [], 0) == b;
    var b2 := Promote(b, id, 1).value;
    assert b2.session.entries == map[id := Entry(Some(1), None)] && b2.session.cached == b.session.cached;
  }

  function Unchanged(): Response {
    Response(1, 2, false, Size(1, 1), [], [], [], false, 0)
  }

  lemma EmptyDelta(k: nat, id: string, b: Row, hash: Row -> Hash)
    ensures Snapshot(k, Steady(id, b, 2), 1, Some(Fingerprint(k, b, 1, hash)), hash) == Unchanged()
  {
    var base, current := [hash(b)], Hashes(One(b).rows, hash);
    assert base == current;
    assert DeltaTo(base, current, 0) == Delta([], []);
    assert Source(base, current, 0) == Some(0);
    assert DeltaOf(base, current) == WithRow(DeltaTo(base, current, 0), base, current, 0);
  }

  lemma EmptyMerge(k: nat, a: Row)
    ensures Acceptable(Some(Frame(k, 1, One(a))), Unchanged()) && Merged(Some(Frame(k, 1, One(a))), Unchanged()) == One(a)
  {
    assert [a][..1] == [a];
    assert CopyAll([a], []) == [a];
    assert PutAll([a], [], []) == [a];
  }

  /** A poll with the pane's revision gets a delta against the other terminal's frame. */
  lemma AskAgain(start: World, steps: seq<Step>, w: World, i: nat, j: nat, id: string, a: Row, b: Row, d: Baseline,
                 hash: Row -> Hash)
    returns (steps': seq<Step>, w': World)
    requires Run(start, steps, hash) == w && id != "" && |w.polls| == 2
    requires w.books == TwoOffers(id, d, Fingerprint(j, b, 1, hash)) && w.panes == [Pane(id, Some(Frame(i, 1, One(a))))]
    requires j < |w.terminals| && w.terminals[j] == Steady(id, b, 1) && id in w.registered && w.registered[id] == j
    ensures Run(start, steps', hash) == w'
    ensures w'.terminals == w.terminals[j := Steady(id, b, 2)] && w'.panes == w.panes
    ensures |w'.polls| == 3 && w'.polls[2].pane == 0 && w'.polls[2].pin.Some? && w'.polls[2].answer.Some?
    ensures w'.polls[2].answer.value.response == Unchanged() && w'.polls[2].answer.value.terminal == j
  {
    hide Run;
    hide Acquire;
    hide Snapshot;
    hide Describe;
    var d' := Fingerprint(j, b, 1, hash);
    SteadySteps(id, b, 1);
    PinsSecond(id, d, d');
    EmptyDelta(j, id, b, hash);
    var s1, w1 := Then(start, steps, w, Start(0, false, [], 0), hash);
    assert w1.polls[2] == PollState(0, 1, Some(d'), Some(1), None, None, false);
    var s2, w2 := Then(start, s1, w1, Resolve(2), hash);
    assert w2.polls[2].terminal == Some(j);
    var s3, w3 := Then(start, s2, w2, Write(j, One(b)), hash);
    steps', w' := Then(start, s3, w3, Take(2), hash);
  }

  /** The pane merges that delta into the first terminal's frame. */
  lemma MergeSecond(start: World, steps: seq<Step>, w: World, i: nat, j: nat, id: string, a: Row, hash: Row -> Hash)
    returns (steps': seq<Step>, w': World)
    requires Run(start, steps, hash) == w && w.panes == [Pane(id, Some(Frame(i, 1, One(a))))]
    requires |w.polls| == 3 && w.polls[2].pane == 0 && w.polls[2].pin.Some? && w.polls[2].answer.Some?
    requires w.polls[2].answer.value.response == Unchanged() && w.polls[2].answer.value.terminal == j
    ensures Run(start, steps', hash) == w'
    ensures w'.terminals == w.terminals && w'.panes == [Pane(id, Some(Frame(j, 2, One(a))))]
  {
    hide Run;
    hide BaselineCache.Offer;
    hide BaselineCache.Release;
    hide Acceptable;
    hide Merged;
    EmptyMerge(i, a);
    var s1, w1 := Then(start, steps, w, LiveScreen.Offer(2, [], 0), hash);
    var s2, w2 := Then(start, s1, w1, Finish(2, 0), hash);
    assert CanDeliver(w2, 2) && w2.panes == w.panes;
    steps', w' := Then(start, s2, w2, Deliver(2), hash);
  }

  // ------------------------------------------------------------------ the theorem

  /** The pane shows rows that no terminal with its ID ever showed at the revision it was told. */
  ghost predicate NeverShown(w: World, pane: Pane) {
    && pane.frame.Some?
    && var f := pane.frame.value;
       forall k :: 0 <= k < |w.terminals| && w.terminals[k].id == pane.id && f.revision < |w.terminals[k].shown| ==>
         w.terminals[k].shown[f.revision].rows != f.screen.rows
  }

  lemma NeverShownIsWrong(w: World, i: nat)
    requires i < |w.panes| && NeverShown(w, w.panes[i])
    ensures !AllExact(w)
  {
    assert AllExact(w) ==> Exact(w.terminals, w.panes[i]);
  }

  /** The row shown by the terminal at place k of the run below. */
  lemma ReusedWorld(w: World, ids: seq<string>, i: nat, j: nat, a: Row, b: Row)
    requires i < j < |ids| && ids[i] == ids[j] && a != b && |w.terminals| == |ids|
    requires forall k :: 0 <= k < |ids| && k != i && k != j ==> w.terminals[k].id == ids[k] && |w.terminals[k].shown| == 1
    requires w.terminals[i] == Steady(ids[i], a, 1) && w.terminals[j] == Steady(ids[j], b, 2)
    requires w.panes == [Pane(ids[i], Some(Frame(j, 2, One(a))))]
    ensures NeverShown(w, w.panes[0]) && CreatedIds(w) == ids
  {
    assert One(a).rows[0] != One(b).rows[0];
  }

  /** Whenever an ID is created twice, some run leaves a pane with rows never shown at its revision. */
  lemma ReusedIdBreaks(ids: seq<string>, i: nat, j: nat, a: Row, b: Row, hash: Row -> Hash) returns (steps: seq<Step>)
    requires i < j < |ids| && ids[i] == ids[j] && a != b
    requires forall k :: 0 <= k < |ids| ==> ids[k] != ""
    ensures var w := Run(START, steps, hash);
            CreatedIds(w) == ids && |w.panes| == 1 && NeverShown(w, w.panes[0])
  {
    hide Run;
    hide BaselineCache.Offer;
    hide NeverShown;
    var id := ids[i];
    var s1, w1 := CreateMany(START, ids[..i + 1], a, hash);
    assert ids[..i + 1][i] == id;
    assert w1.terminals[i] == w1.terminals[|START.terminals| + i];
    var s2, w2 := ShowFirst(START, s1, w1, i, id, a, hash);
    var t3, w3 := CreateMany(w2, ids[i + 1..j + 1], b, hash);
    RunConcat(START, s2, t3, hash);
    var n := |w2.terminals|;
    assert ids[i + 1..j + 1][j - i - 1] == id && w3.terminals[j] == w3.terminals[n + (j - i - 1)];
    var d := Fingerprint(i, a, 1, hash);
    var s4, w4 := Bootstrap(START, s2 + t3, w3, j, id, b, hash);
    SecondOffer(id, d, Fingerprint(j, b, 1, hash));
    var s5', w5' := AskAgain(START, s4, w4, i, j, id, a, b, d, hash);
    var s5, w5 := MergeSecond(START, s5', w5', i, j, id, a, hash);
    var t6, w6 := CreateMany(w5, ids[j + 1..], a, hash);
    RunConcat(START, s5, t6, hash);
    steps := s5 + t6;
    Places(ids, i, j, a, b, w1, w2, w3, w5, w6);
    ReusedWorld(w6, ids, i, j, a, b);
  }

  /** Where every terminal of the run stands. */
  lemma Places(ids: seq<string>, i: nat, j: nat, a: Row, b: Row, w1: World, w2: World, w3: World, w5: World, w6: World)
    requires i < j < |ids|
    requires |w1.terminals| == i + 1 && forall k :: 0 <= k <= i ==> w1.terminals[k] == Steady(ids[k], a, 0)
    requires w2.terminals == w1.terminals[i := Steady(ids[i], a, 1)]
    requires |w3.terminals| == j + 1 && w2.terminals <= w3.terminals
    requires forall k :: i < k <= j ==> w3.terminals[k] == Steady(ids[k], b, 0)
    requires w5.terminals == w3.terminals[j := Steady(ids[j], b, 2)]
    requires |w6.terminals| == |ids| && w5.terminals <= w6.terminals
    requires forall k :: j < k < |ids| ==> w6.terminals[k] == Steady(ids[k], a, 0)
    ensures forall k :: 0 <= k < |ids| && k != i && k != j ==> w6.terminals[k].id == ids[k] && |w6.terminals[k].shown| == 1
    ensures w6.terminals[i] == Steady(ids[i], a, 1) && w6.terminals[j] == Steady(ids[j], b, 2)
  {
    assert w6.terminals[i] == w5.terminals[i] == w3.terminals[i] == w2.terminals[i];
    assert w6.terminals[j] == w5.terminals[j];
    forall k | 0 <= k < |ids| && k != i && k != j
      ensures w6.terminals[k].id == ids[k] && |w6.terminals[k].shown| == 1
    {
      if k < i {
        assert w6.terminals[k] == w5.terminals[k] == w3.terminals[k] == w2.terminals[k] == w1.terminals[k];
      } else if k < j {
        assert w6.terminals[k] == w5.terminals[k] == w3.terminals[k];
      }
    }
  }

  /**
   For every sequence of created IDs: every pane of every run that creates them shows exactly
   what its terminal showed at its revision if and only if no ID is created twice.
   */
  lemma ExactIffDistinct(ids: seq<string>, hash: Row -> Hash)
    requires Injective(hash) && forall k :: 0 <= k < |ids| ==> ids[k] != ""
    ensures (forall steps :: CreatedIds(Run(START, steps, hash)) == ids ==> AllExact(Run(START, steps, hash)))
            <==> Distinct(ids)
  {
    hide Run;
    hide AllExact;
    if Distinct(ids) {
      forall steps | CreatedIds(Run(START, steps, hash)) == ids ensures AllExact(Run(START, steps, hash)) {
        FreshIdsExact(steps, hash);
      }
    } else {
      var i, j :| 0 <= i < j < |ids| && ids[i] == ids[j];
      var steps := ReusedIdBreaks(ids, i, j, [0], [1], hash);
      NeverShownIsWrong(Run(START, steps, hash), 0);
    }
  }
}
