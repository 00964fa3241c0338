/**
 The live-screen protocol end to end: terminals that change and are re-created, one protocol
 session's baseline cache, polls that overlap and answers that get lost, and panes that apply
 full frames and matching-base deltas.

 Every terminal object ever created has a place in `terminals`; `shown` remembers its screen
 at every revision. A frame's `terminal` field only records where it came from: no server or
 client branch reads it.
 */
module LiveScreen {
  import opened LiveDelta
  import opened BaselineCache

  type Row = seq<nat>

  /** `look` stands for the cursor, the modes and whatever else comes with every answer. */
  datatype Screen = Screen(size: Size, rows: seq<Row>, altScreen: bool, look: int)

  const BLANK: Screen := Screen(Size(0, 0), [], false, 0)

  predicate WellSized(s: Screen) {
    |s.rows| == s.size.rows
  }

  datatype Terminal = Terminal(id: string, live: Option<Screen>, revision: nat, generation: nat, shown: seq<Screen>)
  {
    function Display(): Screen {
      if live.Some? then live.value else BLANK
    }
  }

  /** NativeScreenSnapshot: rows `changed` have the cells `cells`. */
  datatype Response = Response(base: nat, revision: nat, full: bool, size: Size, copies: seq<RowCopy>,
                               changed: seq<nat>, cells: seq<Row>, altScreen: bool, look: int)

  datatype Frame = Frame(terminal: nat, revision: nat, screen: Screen)

  datatype Pane = Pane(id: string, frame: Option<Frame>)

  datatype Answer = Answer(terminal: nat, response: Response, baseline: Baseline)

  /** A poll between its sections: what it pinned, the terminal object it looked up, its answer and whether it offered. */
  datatype PollState = PollState(pane: nat, observed: nat, base: Option<Baseline>, pin: Option<nat>,
                                 terminal: Option<nat>, answer: Option<Answer>, offered: bool)

  datatype World = World(terminals: seq<Terminal>, registered: map<string, nat>, books: Books, panes: seq<Pane>,
                         polls: seq<PollState>)

  const START: World := World.World([], map[], Books(NewSession, 0), [], [])

  // ------------------------------------------------------------------ server

  function Upto(n: nat): (r: seq<nat>)
    ensures |r| == n && forall i :: 0 <= i < n ==> r[i] == i
  {
    seq(n, i => i)
  }

  function Describe(k: nat, t: Terminal, hash: Row -> Hash): Baseline {
    var s := t.Display();
    Baseline(k, t.revision, t.generation, s.size, Hashes(s.rows, hash), s.altScreen)
  }

  function FullResponse(t: Terminal, observed: nat): Response {
    var s := t.Display();
    Response(observed, t.revision, true, s.size, [], Upto(|s.rows|), s.rows, s.altScreen, s.look)
  }

  /** Whether nativeScreenSnapshotSinceBaseline answers with a delta against `base`. */
  predicate Deltable(k: nat, t: Terminal, observed: nat, base: Option<Baseline>) {
    && t.live.Some?
    && observed != 0 && observed <= t.revision && base.Some?
    && base.value.terminal == k && base.value.revision == observed && base.value.generation == t.generation
    && base.value.size == t.live.value.size && base.value.altScreen == t.live.value.altScreen
    && |base.value.rowHashes| == |t.live.value.rows|
  }

  /** nativeScreenSnapshotSinceBaseline, without the baseline it also returns. */
  function Snapshot(k: nat, t: Terminal, observed: nat, base: Option<Baseline>, hash: Row -> Hash): Response {
    if Deltable(k, t, observed, base) then
      var s := t.live.value;
      var delta := DeltaOf(base.value.rowHashes, Hashes(s.rows, hash));
      InRange(base.value.rowHashes, Hashes(s.rows, hash));
      Response(observed, t.revision, false, s.size, delta.copies, delta.replaced, Pick(s.rows, delta.replaced),
               s.altScreen, s.look)
    else FullResponse(t, observed)
  }

  lemma InRange(base: seq<Hash>, current: seq<Hash>)
    requires |base| == |current|
    ensures forall i :: 0 <= i < |DeltaOf(base, current).replaced| ==> DeltaOf(base, current).replaced[i] < |current|
  {
    DeltaGood(base, current, |current|);
  }

  // ------------------------------------------------------------------ client

  function Blanks(n: nat): (r: seq<Row>)
    ensures |r| == n
  {
    seq(n, _ => [])
  }

  ghost predicate Acceptable(held: Option<Frame>, r: Response) {
    if r.full then |r.changed| == |r.cells| && forall i :: 0 <= i < |r.changed| ==> r.changed[i] < r.size.rows
    else
      && held.Some? && held.value.revision == r.base && held.value.screen.size == r.size
      && r.size.rows <= |held.value.screen.rows|
      && Applicable(held.value.screen.rows[..r.size.rows], r.copies, r.changed, r.cells)
  }

  /** What a pane shows after it applied an answer it accepts. */
  ghost function Merged(held: Option<Frame>, r: Response): Screen
    requires Acceptable(held, r)
  {
    Screen(r.size,
           if r.full then PutAll(Blanks(r.size.rows), r.changed, r.cells)
           else Applied(held.value.screen.rows[..r.size.rows], r.copies, r.changed, r.cells),
           r.altScreen, r.look)
  }

  // ------------------------------------------------------------------ steps

  datatype Step =
    | Create(id: string, live: Option<Screen>)
    | Remove(id: string)
    | Write(k: nat, screen: Screen)
    | Resize(k: nat, screen: Screen)
    | Restart(k: nat, screen: Screen)
    | OpenPane(id: string)
    | Start(pane: nat, bootstrap: bool, keys: seq<string>, now: int)
    | Resolve(p: nat)
    | Take(p: nat)
    | Offer(p: nat, keys: seq<string>, now: int)
    | Finish(p: nat, now: int)
    | Deliver(p: nat)
    | Expire(keys: seq<string>, now: int)
    | Teardown(keys: seq<string>)
    | Elsewhere(server: int)

  /** A change of screen: one lock, one revision. */
  function Changed(t: Terminal, screen: Screen, generations: nat): Terminal {
    t.(live := Some(screen), revision := t.revision + 1, generation := t.generation + generations,
       shown := t.shown + [screen])
  }

  function WithTerminal(w: World, k: nat, t: Terminal): World
    requires k < |w.terminals|
  {
    w.(terminals := w.terminals[k := t])
  }

  function Observed(pane: Pane, bootstrap: bool): nat {
    if bootstrap || pane.frame.None? then 0 else pane.frame.value.revision
  }

  function StartPoll(w: World, i: nat, bootstrap: bool, keys: seq<string>, now: int): World
    requires i < |w.panes|
  {
    var observed := Observed(w.panes[i], bootstrap);
    var got := Acquire(w.books, w.panes[i].id, observed, keys, now);
    var base := if got.held.Some? && got.held.value < |got.books.session.cached|
                then Some(got.books.session.cached[got.held.value].screen) else None;
    w.(books := got.books, polls := w.polls + [PollState(i, observed, base, got.held, None, None, false)])
  }

  predicate CanTake(w: World, p: nat) {
    p < |w.polls| && w.polls[p].answer.None? && w.polls[p].terminal.Some? && w.polls[p].terminal.value < |w.terminals|
  }

  /** The snapshot of the terminal object the poll looked up, registered or removed by now. */
  function TakeSnapshot(w: World, p: nat, hash: Row -> Hash): World
    requires CanTake(w, p)
  {
    var poll, k := w.polls[p], w.polls[p].terminal.value;
    var t := w.terminals[k];
    w.(polls := w.polls[p := poll.(answer := Some(Answer(k, Snapshot(k, t, poll.observed, poll.base, hash),
                                                         Describe(k, t, hash))))])
  }

  predicate CanOffer(w: World, p: nat) {
    p < |w.polls| && w.polls[p].answer.Some? && w.polls[p].pane < |w.panes|
  }

  function OfferAnswer(w: World, p: nat, keys: seq<string>, now: int): World
    requires CanOffer(w, p)
  {
    var poll := w.polls[p];
    w.(books := BaselineCache.Offer(w.books, w.panes[poll.pane].id, poll.answer.value.baseline, keys, now),
       polls := w.polls[p := poll.(offered := true)])
  }

  /** An answer leaves the server after the frame was offered and the pin given back. */
  predicate CanDeliver(w: World, p: nat) {
    p < |w.polls| && w.polls[p].answer.Some? && w.polls[p].offered && w.polls[p].pin.None? && w.polls[p].pane < |w.panes|
  }

  ghost function DeliverAnswer(w: World, p: nat): World
    requires CanDeliver(w, p)
  {
    var i, a := w.polls[p].pane, w.polls[p].answer.value;
    var pane := w.panes[i];
    if !Acceptable(pane.frame, a.response) then w
    else
      var frame := Frame(a.terminal, a.response.revision, Merged(pane.frame, a.response));
      w.(panes := w.panes[i := pane.(frame := Some(frame))])
  }

  /** One critical section. A disabled step leaves the world as it is. */
  ghost function Next(w: World, step: Step, hash: Row -> Hash): World {
    match step
    case Create(id, live) =>
      if id == "" || id in w.registered || (live.Some? && !WellSized(live.value)) then w
      else
        var t := Terminal(id, live, 0, 0, []);
        w.(terminals := w.terminals + [t.(shown := [t.Display()])], registered := w.registered[id := |w.terminals|])
    case Remove(id) => w.(registered := w.registered - {id})
    case Write(k, screen) =>
      if k < |w.terminals| && w.terminals[k].live.Some? && WellSized(screen)
      then WithTerminal(w, k, Changed(w.terminals[k], screen, 0)) else w
    case Resize(k, screen) =>
      if k < |w.terminals| && w.terminals[k].live.Some? && WellSized(screen)
      then WithTerminal(w, k, Changed(w.terminals[k], screen, 1)) else w
    case Restart(k, screen) =>
      if k < |w.terminals| && WellSized(screen)
      then WithTerminal(w, k, Changed(w.terminals[k], screen, 1)) else w
    case OpenPane(id) => w.(panes := w.panes + [Pane(id, None)])
    case Start(i, bootstrap, keys, now) => if i < |w.panes| then StartPoll(w, i, bootstrap, keys, now) else w
    case Resolve(p) =>
      if p < |w.polls| && w.polls[p].pane < |w.panes| && w.panes[w.polls[p].pane].id in w.registered
      then w.(polls := w.polls[p := w.polls[p].(terminal := Some(w.registered[w.panes[w.polls[p].pane].id]))]) else w
    case Take(p) => if CanTake(w, p) then TakeSnapshot(w, p, hash) else w
    case Offer(p, keys, now) => if CanOffer(w, p) then OfferAnswer(w, p, keys, now) else w
    case Finish(p, now) =>
      if p < |w.polls| && w.polls[p].pin.Some?
      then w.(books := Release(w.books, w.polls[p].pin.value, now), polls := w.polls[p := w.polls[p].(pin := None)])
      else w
    case Deliver(p) =>
      if CanDeliver(w, p) then DeliverAnswer(w, p) else w
    case Expire(keys, now) => w.(books := Apply(w.books, BaselineCache.Expire(keys, now)))
    case Teardown(keys) => w.(books := Apply(w.books, BaselineCache.Teardown(keys)))
    case Elsewhere(server) => w.(books := w.books.(server := server))
  }

  ghost function Run(w: World, steps: seq<Step>, hash: Row -> Hash): World
    decreases |steps|
  {
    if steps == [] then w else Run(Next(w, steps[0], hash), steps[1..], hash)
  }

  // ------------------------------------------------------------------ what always holds

  /** A revision determines the screen. */
  ghost predicate History(t: Terminal) {
    && |t.shown| == t.revision + 1
    && t.shown[t.revision] == t.Display()
    && (forall r :: 0 <= r < |t.shown| ==> WellSized(t.shown[r]))
  }

  /** The fingerprints of a screen that terminal really showed at that revision. */
  ghost predicate Genuine(ts: seq<Terminal>, b: Baseline, hash: Row -> Hash) {
    && b.terminal < |ts| && b.revision < |ts[b.terminal].shown|
    && var s := ts[b.terminal].shown[b.revision];
       b.size == s.size && b.rowHashes == Hashes(s.rows, hash) && b.altScreen == s.altScreen
  }

  ghost predicate CacheGenuine(w: World, hash: Row -> Hash) {
    forall i :: 0 <= i < |w.books.session.cached| ==> Genuine(w.terminals, w.books.session.cached[i].screen, hash)
  }

  /** An answer says what terminal k showed: in full, or against a screen it showed before. */
  ghost predicate Truthful(ts: seq<Terminal>, k: nat, r: Response, hash: Row -> Hash) {
    && k < |ts| && r.revision < |ts[k].shown|
    && var s := ts[k].shown[r.revision];
       && r.size == s.size && r.altScreen == s.altScreen && r.look == s.look && WellSized(s)
       && if r.full then r.changed == Upto(|s.rows|) && r.cells == s.rows
          else
            && r.base < |ts[k].shown|
            && var b := ts[k].shown[r.base];
               && b.size == s.size && |b.rows| == |s.rows|
               && DeltaFor(b.rows, s.rows, r, hash)
  }

  ghost predicate DeltaFor(base: seq<Row>, current: seq<Row>, r: Response, hash: Row -> Hash)
    requires |base| == |current|
  {
    var delta := DeltaOf(Hashes(base, hash), Hashes(current, hash));
    && r.copies == delta.copies && r.changed == delta.replaced
    && (forall i :: 0 <= i < |delta.replaced| ==> delta.replaced[i] < |current|)
    && r.cells == Pick(current, delta.replaced)
  }

  ghost predicate PollTrue(w: World, p: PollState, hash: Row -> Hash) {
    && p.pane < |w.panes|
    && (p.terminal.Some? ==> p.terminal.value < |w.terminals| && w.terminals[p.terminal.value].id == w.panes[p.pane].id)
    && (p.base.Some? ==> Genuine(w.terminals, p.base.value, hash))
    && (p.answer.Some? ==>
          var a := p.answer.value;
          && Truthful(w.terminals, a.terminal, a.response, hash)
          && Genuine(w.terminals, a.baseline, hash)
          && w.terminals[a.terminal].id == w.panes[p.pane].id)
  }

  ghost predicate Registered(w: World) {
    forall id :: id in w.registered ==> w.registered[id] < |w.terminals| && w.terminals[w.registered[id]].id == id
  }

  /** What the server side keeps whatever the panes hold. */
  ghost predicate Inv(w: World, hash: Row -> Hash) {
    && (forall k :: 0 <= k < |w.terminals| ==> History(w.terminals[k]))
    && Registered(w)
    && CacheGenuine(w, hash)
    && (forall p :: 0 <= p < |w.polls| ==> PollTrue(w, w.polls[p], hash))
  }

  /** The pane shows exactly what its terminal showed at the revision it was told. */
  ghost predicate Exact(ts: seq<Terminal>, pane: Pane) {
    pane.frame.Some? ==>
      var f := pane.frame.value;
      && f.terminal < |ts| && ts[f.terminal].id == pane.id
      && f.revision < |ts[f.terminal].shown| && f.screen == ts[f.terminal].shown[f.revision]
      && WellSized(f.screen)
  }

  ghost predicate AllExact(w: World) {
    forall i :: 0 <= i < |w.panes| ==> Exact(w.terminals, w.panes[i])
  }

  // ------------------------------------------------------------------ merging

  lemma FullShows(r: Response, s: Screen)
    requires r.full && r.size == s.size && WellSized(s) && r.altScreen == s.altScreen && r.look == s.look
    requires r.changed == Upto(|s.rows|) && r.cells == s.rows
    ensures Acceptable(None, r) && Merged(None, r) == s
  {
    assert Pick(s.rows, Upto(|s.rows|)) == s.rows;
    var put := PutAll(Blanks(|s.rows|), Upto(|s.rows|), Pick(s.rows, Upto(|s.rows|)));
    forall d | 0 <= d < |s.rows| ensures put[d] == s.rows[d] {
      PutRow(Blanks(|s.rows|), s.rows, Upto(|s.rows|), d);
      assert Upto(|s.rows|)[d] == d;
    }
    assert put == s.rows;
  }

  /** A delta merged into the frame it was made for gives the screen it was made from. */
  lemma DeltaShows(held: Frame, r: Response, base: Screen, s: Screen, hash: Row -> Hash)
    requires Injective(hash) && !r.full && held.revision == r.base && held.screen.size == r.size
    requires WellSized(s) && r.size == s.size && r.altScreen == s.altScreen && r.look == s.look && |base.rows| == |s.rows|
    requires DeltaFor(base.rows, s.rows, r, hash) && held.screen.rows == base.rows
    ensures Acceptable(Some(held), r) && Merged(Some(held), r) == s
  {
    assert held.screen.rows[..r.size.rows] == base.rows;
    DeltaFits(base.rows, s.rows, hash, base.rows);
    DeltaExact(base.rows, s.rows, hash);
  }

  /**
   Deltas made against `base` keep a pane right whatever the terminal shows next, exactly
   when the pane refuses them for their size or holds the rows of `base`.
   */
  lemma MergeIsSafe(held: Frame, base: Screen, hash: Row -> Hash)
    requires Injective(hash) && WellSized(base) && WellSized(held.screen)
    ensures (forall s: Screen, r: Response ::
               s.size == base.size && WellSized(s) && DeltaOn(held, base, s, r, hash) && Acceptable(Some(held), r)
               ==> Merged(Some(held), r) == s)
            <==> held.screen.size != base.size || held.screen.rows == base.rows
  {
    if held.screen.size == base.size {
      if held.screen.rows == base.rows {
        forall s: Screen, r: Response | s.size == base.size && WellSized(s) && DeltaOn(held, base, s, r, hash)
          ensures Acceptable(Some(held), r) && Merged(Some(held), r) == s
        {
          DeltaShows(held, r, base, s, hash);
        }
      } else {
        DeltaNeedsBase(held.screen.rows, base.rows, hash);
        var current :| |current| == |base.rows| && Received(held.screen.rows, base.rows, current, hash) != current;
        var s, r := WrongDelta(held, base, current, hash);
      }
    }
  }

  /** The delta from base to s, addressed to the revision the pane holds. */
  ghost predicate DeltaOn(held: Frame, base: Screen, s: Screen, r: Response, hash: Row -> Hash)
    requires |base.rows| == base.size.rows && s.size == base.size && WellSized(s)
  {
    && !r.full && r.base == held.revision && r.size == s.size && r.altScreen == s.altScreen && r.look == s.look
    && DeltaFor(base.rows, s.rows, r, hash)
  }

  lemma WrongDelta(held: Frame, base: Screen, current: seq<Row>, hash: Row -> Hash) returns (s: Screen, r: Response)
    requires WellSized(base) && WellSized(held.screen) && held.screen.size == base.size && |current| == |base.rows|
    requires Received(held.screen.rows, base.rows, current, hash) != current
    ensures s.size == base.size && WellSized(s) && DeltaOn(held, base, s, r, hash)
    ensures Acceptable(Some(held), r) && Merged(Some(held), r) != s
  {
    DeltaFits(base.rows, current, hash, held.screen.rows);
    var delta := DeltaOf(Hashes(base.rows, hash), Hashes(current, hash));
    s := Screen(base.size, current, base.altScreen, 0);
    r := Response(held.revision, held.revision + 1, false, base.size, delta.copies, delta.replaced,
                  Pick(current, delta.replaced), base.altScreen, 0);
    assert held.screen.rows[..base.size.rows] == held.screen.rows;
  }

  // ------------------------------------------------------------------ every step keeps it

  /** Terminals are only added, and only grow their history. */
  ghost predicate Grow(ts: seq<Terminal>, ts': seq<Terminal>) {
    && |ts| <= |ts'|
    && (forall k :: 0 <= k < |ts| ==> ts'[k].id == ts[k].id && ts[k].shown <= ts'[k].shown)
  }

  lemma GenuineGrows(ts: seq<Terminal>, ts': seq<Terminal>, b: Baseline, hash: Row -> Hash)
    requires Grow(ts, ts') && Genuine(ts, b, hash)
    ensures Genuine(ts', b, hash)
  {
  }

  lemma TruthfulGrows(ts: seq<Terminal>, ts': seq<Terminal>, k: nat, r: Response, hash: Row -> Hash)
    requires Grow(ts, ts') && Truthful(ts, k, r, hash)
    ensures Truthful(ts', k, r, hash)
  {
    hide DeltaFor;
    assert ts[k].shown <= ts'[k].shown;
  }

  lemma ExactGrows(ts: seq<Terminal>, ts': seq<Terminal>, pane: Pane)
    requires Grow(ts, ts') && Exact(ts, pane)
    ensures Exact(ts', pane)
  {
  }

  lemma PollGrows(w: World, w': World, p: PollState, hash: Row -> Hash)
    requires Grow(w.terminals, w'.terminals) && PollTrue(w, p, hash)
    requires |w.panes| <= |w'.panes| && forall i :: 0 <= i < |w.panes| ==> w'.panes[i].id == w.panes[i].id
    ensures PollTrue(w', p, hash)
  {
    hide Genuine;
    hide Truthful;
    if p.base.Some? { GenuineGrows(w.terminals, w'.terminals, p.base.value, hash); }
    if p.answer.Some? {
      var a := p.answer.value;
      TruthfulGrows(w.terminals, w'.terminals, a.terminal, a.response, hash);
      GenuineGrows(w.terminals, w'.terminals, a.baseline, hash);
      assert a.terminal < |w.terminals| by { TruthfulKnown(w.terminals, a.terminal, a.response, hash); }
    }
  }

  lemma TruthfulKnown(ts: seq<Terminal>, k: nat, r: Response, hash: Row -> Hash)
    requires Truthful(ts, k, r, hash)
    ensures k < |ts|
  {
  }

  /** The step leaves the cache and the polls alone, or changes them to true ones. */
  lemma WorldGrows(w: World, w': World, hash: Row -> Hash)
    requires Inv(w, hash) && Grow(w.terminals, w'.terminals)
    requires forall k :: 0 <= k < |w'.terminals| ==> History(w'.terminals[k])
    requires |w.panes| <= |w'.panes| && forall i :: 0 <= i < |w.panes| ==> w'.panes[i].id == w.panes[i].id
    requires w'.books.session.cached == w.books.session.cached && w'.polls == w.polls && Registered(w')
    ensures Inv(w', hash)
  {
    hide History;
    hide Genuine;
    hide PollTrue;
    forall i | 0 <= i < |w'.books.session.cached| ensures Genuine(w'.terminals, w'.books.session.cached[i].screen, hash) {
      GenuineGrows(w.terminals, w'.terminals, w.books.session.cached[i].screen, hash);
    }
    forall p | 0 <= p < |w'.polls| ensures PollTrue(w', w'.polls[p], hash) {
      PollGrows(w, w', w.polls[p], hash);
    }
  }

  lemma ChangedGrows(w: World, k: nat, screen: Screen, generations: nat, hash: Row -> Hash)
    requires Inv(w, hash) && k < |w.terminals| && WellSized(screen)
    ensures var w' := WithTerminal(w, k, Changed(w.terminals[k], screen, generations));
            Inv(w', hash) && Grow(w.terminals, w'.terminals)
  {
    var w' := WithTerminal(w, k, Changed(w.terminals[k], screen, generations));
    assert History(w.terminals[k]);
    assert History(w'.terminals[k]);
    assert Grow(w.terminals, w'.terminals);
    hide Genuine;
    hide PollTrue;
    WorldGrows(w, w', hash);
  }

  /** Every cached screen was cached before, or is the one offered now. */
  ghost predicate Screens(s: Session, s': Session, extra: Option<Baseline>) {
    && |s.cached| <= |s'.cached|
    && (forall i :: 0 <= i < |s'.cached| ==>
          (i < |s.cached| && s'.cached[i].screen == s.cached[i].screen)
          || (i >= |s.cached| && extra == Some(s'.cached[i].screen)))
  }

  lemma DropScreens(b: Books, slot: Option<nat>)
    ensures Screens(b.session, Drop(b, slot).session, None)
  {
  }

  lemma PruneOneScreens(b: Books, t: string, now: int)
    ensures Screens(b.session, PruneOne(b, t, now).session, None)
  {
    hide Drop;
    if t in b.session.entries {
      DropScreens(b, b.session.entries[t].confirmed);
      var b1 := if Expired(b.session, b.session.entries[t].confirmed, now) then DropConfirmed(b, t) else b;
      DropScreens(b1, b1.session.entries[t].offered);
    }
  }

  lemma {:induction false} PruneScreens(b: Books, keys: seq<string>, now: int)
    ensures Screens(b.session, Prune(b, keys, now).session, None)
    decreases |keys|
  {
    hide PruneOne;
    if keys != [] {
      PruneOneScreens(b, keys[0], now);
      PruneScreens(PruneOne(b, keys[0], now), keys[1..], now);
    }
  }

  lemma AcquireScreens(b: Books, t: string, observed: nat, keys: seq<string>, now: int)
    ensures Screens(b.session, Acquire(b, t, observed, keys, now).books.session, None)
  {
    hide Prune;
    hide Drop;
    PruneScreens(b, keys, now);
    var b1 := Prune(b, keys, now);
    if t in b1.session.entries { DropScreens(b1, b1.session.entries[t].confirmed); }
  }

  lemma OfferScreens(b: Books, t: string, screen: Baseline, keys: seq<string>, now: int)
    ensures Screens(b.session, BaselineCache.Offer(b, t, screen, keys, now).session, Some(screen))
  {
    hide Prune;
    hide Drop;
    PruneScreens(b, keys, now);
    var b1 := Prune(b, keys, now);
    if t in b1.session.entries { DropScreens(b1, b1.session.entries[t].offered); }
  }

  lemma {:induction false} ClearScreens(b: Books, keys: seq<string>)
    ensures Screens(b.session, ClearOver(b, keys).session, None)
    decreases |keys|
  {
    hide Drop;
    if keys != [] {
      var t := keys[0];
      if t in b.session.entries {
        DropScreens(b, b.session.entries[t].confirmed);
        DropScreens(DropConfirmed(b, t), DropConfirmed(b, t).session.entries[t].offered);
      }
      hide Screens;
      ClearScreensRest(b, keys);
    }
  }

  lemma ClearScreensRest(b: Books, keys: seq<string>)
    requires keys != [] && Screens(b.session, ClearOne(b, keys[0]).session, None)
    ensures Screens(b.session, ClearOver(b, keys).session, None)
    decreases |keys|, 0
  {
    hide ClearOne;
    ClearScreens(ClearOne(b, keys[0]), keys[1..]);
  }
}
