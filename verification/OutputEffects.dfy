/** What every section does for its caller: chunks are listed, lost, handed out and finished, and never silently dropped. */
module OutputEffects {
  import opened OutputModel
  import opened OutputLemmas
  import opened OutputProofs
  import opened OutputRuns
  import opened OutputTheorems
  import OutputProgress

  // ------------------------------------------------------------------ losing and keeping

  /** All of a consumer's state but its cursor and its gap counters. */
  ghost predicate SameRest(s: ConsumerState, s': ConsumerState) {
    && s'.active == s.active && s'.started == s.started && s'.inFlight == s.inFlight && s'.gapInFlight == s.gapInFlight
    && s'.completedSeq == s.completedSeq && s'.epoch == s.epoch && s'.unavailable == s.unavailable
    && s'.failurePending == s.failurePending
  }

  ghost predicate SameGaps(s: ConsumerState, s': ConsumerState) {
    && s'.pendingGapBytes == s.pendingGapBytes && s'.pendingGapSeq == s.pendingGapSeq
    && s'.droppedBytes == s.droppedBytes && s'.gapCount == s.gapCount
  }

  /** The batch in flight stays; the queued chunks, and `bytes` more, become part of the pending gap. */
  ghost predicate Loses(s: ConsumerState, items: seq<Item>, s': ConsumerState, items': seq<Item>, bytes: nat) {
    && items' == Kept(items, s) && SameRest(s, s')
    && s'.pendingGapBytes == s.pendingGapBytes + ItemBytes(Gone(items, s)) + bytes
    && s'.droppedBytes == s.droppedBytes + ItemBytes(Gone(items, s)) + bytes
  }

  lemma {:induction false} AddGapsWeigh(s: ConsumerState, items: seq<Item>)
    ensures var s' := AddGaps(s, items);
            && SameRest(s, s') && s'.pendingGapBytes == s.pendingGapBytes + ItemBytes(items)
            && s'.droppedBytes == s.droppedBytes + ItemBytes(items)
    decreases |items|
  {
    if items != [] { AddGapsWeigh(AddGap(s, items[0].seqNo, |items[0].payload|), items[1..]); }
  }

  /** Nothing of a consumer changed. */
  ghost predicate SameView(b: Buffer, b': Buffer, c: Consumer) {
    b'.State(c) == b.State(c) && Items(b'.nodes, c) == Items(b.nodes, c)
  }

  ghost predicate LosesIn(b: Buffer, b': Buffer, c: Consumer, bytes: nat) {
    Loses(b.State(c), Items(b.nodes, c), b'.State(c), Items(b'.nodes, c), bytes)
  }

  lemma ShedLoses(nodes: seq<Node>, c: Consumer, s: ConsumerState)
    ensures Loses(s, Items(nodes, c), ShedState(nodes, |nodes|, c, s), Items(ShedNodes(nodes, |nodes|, c, s), c), 0)
  {
    hide Items;
    hide Kept;
    hide Gone;
    hide ShedNodes;
    hide ShedItems;
    hide AddGaps;
    hide ItemBytes;
    hide FirstPending;
    hide Mentions;
    var k := |nodes|;
    ShedOwn(nodes, k, c, s);
    ShedGone(nodes, k, c, s);
    assert nodes[..k] == nodes && nodes[k..] == [];
    NoItems(c);
    AddGapsWeigh(s, ShedItems(nodes, k, c, s));
  }

  lemma NoItems(c: Consumer)
    ensures Items([], c) == []
  {
  }

  lemma ShedView(b: Buffer, c: Consumer)
    ensures var b' := Shed(b, |b.nodes|, c); LosesIn(b, b', c, 0) && SameView(b, b', Other(c)) && Frame(b, b')
  {
    hide Items;
    hide Loses;
    hide ShedNodes;
    hide ShedState;
    ShedFrame(b, |b.nodes|, c);
    ShedLoses(b.nodes, c, b.State(c));
  }

  lemma SweptView(b: Buffer, c: Consumer)
    ensures SameView(b, Swept(b), c) && Frame(b, Swept(b))
  {
    ReclaimItems(b.nodes, c);
  }

  lemma RefuseView(b: Buffer, c: Consumer, seqNo: nat, bytes: nat)
    ensures var b' := RefuseFor(b, c, seqNo, bytes);
            && SameView(b, b', Other(c)) && Frame(b, b')
            && (if b.State(c).active then LosesIn(b, b', c, bytes) && (bytes > 0 ==> b'.State(c).pendingGapSeq >= seqNo)
                else b' == b)
  {
    ShedView(b, c);
    hide Shed;
    hide Items;
  }

  /** A refused chunk and all that is queued are lost to every active consumer. */
  lemma IncomingView(b: Buffer, bytes: nat, c: Consumer)
    ensures var b' := DropIncoming(b, bytes);
            && b'.nextSeq == b.nextSeq + 1
            && (if b.State(c).active then LosesIn(b, b', c, bytes) && (bytes > 0 ==> b'.State(c).pendingGapSeq >= b.nextSeq + 1)
                else SameView(b, b', c))
  {
    hide RefuseFor;
    hide Items;
    hide Swept;
    hide Loses;
    var b0 := b.(nextSeq := b.nextSeq + 1);
    RefuseView(b0, Live, b0.nextSeq, bytes);
    var b1 := RefuseFor(b0, Live, b0.nextSeq, bytes);
    RefuseView(b1, History, b0.nextSeq, bytes);
    SweptView(RefuseFor(b1, History, b0.nextSeq, bytes), c);
  }

  lemma LossyView(b: Buffer, c: Consumer, seqNo: nat, bytes: nat)
    ensures var b' := AppendLossy(b, c, seqNo, bytes);
            && SameView(b, b', Other(c)) && Frame(b, b')
            && (if b.State(c).active && Lossy(b.State(c))
                then LosesIn(b, b', c, bytes) && (bytes > 0 ==> b'.State(c).pendingGapSeq >= seqNo)
                else b' == b)
  {
    ShedView(b, c);
    hide Shed;
    hide Items;
  }

  /** What an appended chunk means to a consumer: one more queued, or one more lost when a gap is open. */
  ghost predicate Gets(b: Buffer, b': Buffer, c: Consumer, p: Payload) {
    var s, s' := b.State(c), b'.State(c);
    if !s.active then SameView(b, b', c)
    else if !Lossy(s) then
      Items(b'.nodes, c) == Items(b.nodes, c) + [Item(b.nextSeq + 1, p)] && SameGaps(s, s') && SameRest(s, s')
    else LosesIn(b, b', c, |p|) && (p != [] ==> s'.pendingGapSeq >= b.nextSeq + 1)
  }

  lemma AppendView(b: Buffer, p: Payload, c: Consumer)
    ensures Append(b, p).nextSeq == b.nextSeq + 1 && Gets(b, Append(b, p), c, p)
  {
    hide AppendLossy;
    hide Items;
    hide Swept;
    hide Loses;
    var n := b.nextSeq + 1;
    var b0 := b.(nextSeq := n);
    LossyView(b0, Live, n, |p|);
    var b1 := AppendLossy(b0, Live, n, |p|);
    LossyView(b1, History, n, |p|);
    var b2 := AppendLossy(b1, History, n, |p|);
    SweptView(b2, c);
    var b3, node := Swept(b2), Node(n, p, Mask(b));
    NodeAppends(b3.nodes, node, c);
    assert c !in Mask(b) ==> Items(b3.nodes, c) + Mine(node, c) == Items(b3.nodes, c);
  }

  // ------------------------------------------------------------------ writing

  /** A committed chunk of an open buffer is the next of the stream, and every active consumer gets it or a larger gap. */
  lemma CommitLists(w: World, c: Consumer)
    requires w.writer.Some? && !w.b.closed && !w.b.sealed
    ensures var w', p := Step(w, Commit), w.writer.value;
            && w'.writer.None? && w'.written == w.written + [p] && w'.b.nextSeq == w.b.nextSeq + 1
            && Gets(w.b, w'.b, c, p)
            && w'.T(c) == (if w.b.State(c).active then w.T(c).(stream := w.T(c).stream + [p]) else w.T(c))
  {
    AppendView(w.b, w.writer.value, c);
    hide Append;
    hide Gets;
  }

  /** A chunk refused by the shared budget, or for which nothing could be dropped, is numbered and lost to everyone. */
  lemma RefusalLoses(w: World, p: Payload, c: Consumer)
    ensures var w' := Refused(w, p);
            && w'.writer.None? && w'.written == w.written + [p] && w'.b.nextSeq == w.b.nextSeq + 1
            && (if w.b.State(c).active then LosesIn(w.b, w'.b, c, |p|) else SameView(w.b, w'.b, c))
  {
    IncomingView(w.b, |p|, c);
    hide DropIncoming;
    hide LosesIn;
  }

  // ------------------------------------------------------------------ the ledger of writes

  /** What a writer knows: its chunk under way, whether the buffer is open, and what was written. */
  datatype Pen = Pen(writer: Option<Payload>, open: bool, ink: seq<Payload>)

  /** The chunk fits at once. */
  predicate FitsAt(b: Buffer, p: Payload) {
    !b.closed && !b.sealed && b.HasActive() && b.resident + |p| <= b.capacity
  }

  /** The chunk does not fit, and dropping the oldest frees nothing. */
  predicate StuckAt(b: Buffer, p: Payload) {
    && !b.closed && !b.sealed && b.HasActive() && b.resident + |p| > b.capacity && b.policy == Drop
    && DropOldest(b, |p|).resident >= b.resident
  }

  /** The ledger, from the actions and the answers to a writer alone. */
  function Written(pen: Pen, a: Action, policy: Policy, fits: bool, stuck: bool): Pen {
    match a
    case Admit(p) => if pen.writer.None? && p != [] && fits then pen.(writer := Some(p)) else pen
    case Squeeze(p) => if pen.writer.None? && p != [] && stuck then pen.(ink := pen.ink + [p]) else pen
    case Commit =>
      if pen.writer.None? then pen
      else pen.(writer := None, ink := if pen.open then pen.ink + [pen.writer.value] else pen.ink)
    case Abandon =>
      if pen.writer.None? then pen
      else pen.(writer := None, ink := if pen.open && policy == Drop then pen.ink + [pen.writer.value] else pen.ink)
    case Seal => pen.(open := false)
    case CloseAll => pen.(open := false)
    case _ => pen
  }

  function PenOf(w: World): Pen {
    Pen(w.writer, !w.b.closed && !w.b.sealed, w.written)
  }

  lemma WriterFixed(b: Buffer, required: int, bytes: nat, p: Payload)
    ensures Fixed(b, DropOldest(b, required)) && Fixed(b, DropIncoming(b, bytes)) && Fixed(b, Append(b, p))
  {
    hide ShedNodes;
    hide ShedState;
    hide AddGap;
    hide DropCount;
    hide Reclaim;
    hide NodeBytes;
  }

  lemma WorkerFixed(b: Buffer, c: Consumer, batch: Batch, gap: Gap, failed: bool, pending: bool)
    ensures Fixed(b, CompleteBatch(b, c, batch, failed, pending)) && Fixed(b, CompleteGap(b, c, gap, failed, pending))
    ensures Fixed(b, FetchState(b, c))
  {
    hide Items;
    hide AckNodes;
    hide ReleaseNodes;
    hide Reclaim;
    hide NodeBytes;
    hide ItemBytes;
    hide FirstPending;
    hide After;
    hide BatchCount;
    hide Join;
  }

  ghost predicate Fixed(b: Buffer, b': Buffer) {
    b'.closed == b.closed && b'.sealed == b.sealed && b'.policy == b.policy && b'.capacity == b.capacity
  }

  lemma CloseMarks(b: Buffer)
    ensures Close(b).closed && Close(b).sealed == b.sealed && Close(b).policy == b.policy
  {
    hide ShedNodes;
    hide ShedState;
    hide Reclaim;
    hide NodeBytes;
  }

  /** Each step is one entry of the ledger. */
  lemma StepWrites(w: World, a: Action)
    ensures var p := if a.Admit? || a.Squeeze? then a.payload else [];
            PenOf(Step(w, a)) == Written(PenOf(w), a, w.b.policy, FitsAt(w.b, p), StuckAt(w.b, p))
    ensures Step(w, a).b.policy == w.b.policy
  {
    hide DropOldest;
    hide DropIncoming;
    hide Append;
    hide Close;
    hide CompleteBatch;
    hide CompleteGap;
    hide Fetch;
    hide FetchState;
    var noBatch, noGap := Batch(Span(0, 0), []), Gap(0, 0, 0);
    match a
    case Admit(p) =>
    case Squeeze(p) =>
      WriterFixed(w.b, |p|, 0, p);
      WriterFixed(DropOldest(w.b, |p|), 0, |p|, p);
    case Commit => if w.writer.Some? { WriterFixed(w.b, 0, 0, w.writer.value); }
    case Abandon => if w.writer.Some? { WriterFixed(w.b, 0, |w.writer.value|, []); }
    case Evict(required) => WriterFixed(w.b, required, 0, []);
    case Take(c) => WorkerFixed(w.b, c, noBatch, noGap, false, false);
    case FinishBatch(c, failed, pending) =>
      if w.T(c).held.HoldsBatch? { WorkerFixed(w.b, c, w.T(c).held.batch, noGap, failed, pending); }
    case FinishGap(c, failed, pending) =>
      if w.T(c).held.HoldsGap? { WorkerFixed(w.b, c, noBatch, w.T(c).held.gap, failed, pending); }
    case CloseAll => CloseMarks(w.b);
    case _ =>
  }

  /** The ledger of a run. */
  function Ledger(w: World, actions: seq<Action>): Pen {
    if actions == [] then PenOf(w)
    else
      var init, a := actions[..|actions| - 1], actions[|actions| - 1];
      var now, p := Run(w, init), if a.Admit? || a.Squeeze? then a.payload else [];
      Written(Ledger(w, init), a, w.b.policy, FitsAt(now.b, p), StuckAt(now.b, p))
  }

  lemma {:induction false} RunSnoc(w: World, actions: seq<Action>, a: Action)
    ensures Run(w, actions + [a]) == Step(Run(w, actions), a)
    decreases |actions|
  {
    hide Step;
    if actions == [] {
      assert actions + [a] == [a] && [a][1..] == [];
      assert Run(w, [a]) == Run(Step(w, a), [a][1..]);
    } else {
      assert (actions + [a])[1..] == actions[1..] + [a];
      RunSnoc(Step(w, actions[0]), actions[1..], a);
    }
  }

  /** What a run wrote is its ledger: every chunk committed, or refused, while the buffer was open, in order, and no other. */
  lemma {:induction false} WrittenIsLedger(w: World, actions: seq<Action>)
    ensures PenOf(Run(w, actions)) == Ledger(w, actions) && Run(w, actions).b.policy == w.b.policy
    decreases |actions|
  {
    if actions != [] {
      hide Run;
      hide Step;
      hide Written;
      hide StuckAt;
      hide FitsAt;
      hide PenOf;
      var init, a := actions[..|actions| - 1], actions[|actions| - 1];
      assert actions == init + [a];
      WrittenIsLedger(w, init);
      RunSnoc(w, init, a);
      StepWrites(Run(w, init), a);
    }
  }

  // ------------------------------------------------------------------ taking work

  lemma IdleHands(items: seq<Item>, b: Buffer, c: Consumer, t: Track)
    requires ConsumerInv(items, b.nextSeq, b.closed, b.State(c), t) && t.held.Idle? && b.State(c).active
    ensures var s := b.State(c);
            && s.inFlight.None? && s.gapInFlight.None? && !b.closed && s.unavailable.None?
            && (s.pendingGapBytes == 0 ==> (s.next.None? <==> items == []))
            && (s.pendingGapBytes == 0 && items != [] ==> s.next == Some(items[0].seqNo))
  {
    hide Tiles;
    hide Join;
    hide ItemBytes;
    hide Gaps;
    hide SkippedBytes;
  }

  /** What a worker with free hands is told, and exactly when. */
  lemma FetchAnswers(w: World, c: Consumer)
    requires Inv(w) && w.T(c).held.Idle?
    ensures var b, s, items := w.b, w.b.State(c), Items(w.b.nodes, c);
            var left := s.pendingGapBytes > 0 || items != [];
            && (Fetch(b, c).Stop? <==> !s.active || b.closed || (b.sealed && !left))
            && (Fetch(b, c).Wait? <==> s.active && !b.closed && !b.sealed && !left)
            && (Fetch(b, c).TakeGap? <==> s.active && !b.closed && s.pendingGapBytes > 0)
            && (Fetch(b, c).TakeGap? ==> Fetch(b, c).gap == Gap(s.epoch + 1, s.pendingGapBytes, s.pendingGapSeq))
            && (Fetch(b, c).TakeBatch? <==> s.active && !b.closed && s.pendingGapBytes == 0 && items != [])
            && (Fetch(b, c).TakeBatch? ==>
                  var m := BatchCount(items);
                  Fetch(b, c).batch == Batch(Span(items[0].seqNo, items[m - 1].seqNo), Join(items[..m])))
  {
    hide Items;
    hide Inv;
    InvTracks(w, c);
    if w.b.State(c).active { IdleHands(Items(w.b.nodes, c), w.b, c, w.T(c)); }
    hide ConsumerInv;
    hide Tracks;
    hide Fetch;
    hide BatchCount;
    hide Join;
    FetchOn(Items(w.b.nodes, c), w.b, c);
  }

  lemma FetchOn(items: seq<Item>, b: Buffer, c: Consumer)
    requires items == Items(b.nodes, c)
    requires var s := b.State(c);
             s.active ==> && !b.closed && (s.pendingGapBytes == 0 ==> (s.next.None? <==> items == []))
                          && (s.pendingGapBytes == 0 && items != [] ==> s.next == Some(items[0].seqNo))
    ensures var s, left := b.State(c), b.State(c).pendingGapBytes > 0 || items != [];
            && (Fetch(b, c).Stop? <==> !s.active || b.closed || (b.sealed && !left))
            && (Fetch(b, c).Wait? <==> s.active && !b.closed && !b.sealed && !left)
            && (Fetch(b, c).TakeGap? <==> s.active && !b.closed && s.pendingGapBytes > 0)
            && (Fetch(b, c).TakeGap? ==> Fetch(b, c).gap == Gap(s.epoch + 1, s.pendingGapBytes, s.pendingGapSeq))
            && (Fetch(b, c).TakeBatch? <==> s.active && !b.closed && s.pendingGapBytes == 0 && items != [])
            && (Fetch(b, c).TakeBatch? ==>
                  var m := BatchCount(items);
                  Fetch(b, c).batch == Batch(Span(items[0].seqNo, items[m - 1].seqNo), Join(items[..m])))
  {
    hide Items;
    hide Join;
    hide BatchCount;
  }

  /** Whatever a worker is handed it holds, and the buffer knows it. */
  lemma TakeHolds(w: World, c: Consumer)
    requires Inv(w) && w.T(c).held.Idle? && w.b.State(c).started
    ensures var w', s', r := Step(w, Take(c)), Step(w, Take(c)).b.State(c), Fetch(w.b, c);
            && Items(w'.b.nodes, c) == Items(w.b.nodes, c) && w'.T(c).log == w.T(c).log && w'.T(c).stream == w.T(c).stream
            && SameView(w.b, w'.b, Other(c)) && w'.T(Other(c)) == w.T(Other(c)) && w'.written == w.written
            && (r.TakeBatch? ==> w'.T(c).held == HoldsBatch(r.batch) && s'.inFlight == Some(r.batch.span))
            && (r.TakeGap? ==> w'.T(c).held == HoldsGap(r.gap) && s'.gapInFlight == Some(r.gap) && s'.pendingGapBytes == 0)
            && (r.Wait? || r.Stop? ==> w' == w)
  {
    hide Inv;
    hide Items;
    hide Fetch;
  }

  // ------------------------------------------------------------------ finishing work

  lemma HeldBatch(items: seq<Item>, b: Buffer, c: Consumer, t: Track)
    requires ConsumerInv(items, b.nextSeq, b.closed, b.State(c), t) && t.held.HoldsBatch?
    ensures b.State(c).inFlight == Some(t.held.batch.span) && b.State(c).unavailable.None?
    ensures b.State(c).completedSeq <= t.held.batch.span.last && b.State(c).gapInFlight.None?
  {
    hide Tiles;
    hide Join;
    hide ItemBytes;
    hide Gaps;
    hide SkippedBytes;
  }

  lemma HeldGap(items: seq<Item>, b: Buffer, c: Consumer, t: Track)
    requires ConsumerInv(items, b.nextSeq, b.closed, b.State(c), t) && t.held.HoldsGap?
    ensures b.State(c).gapInFlight == Some(t.held.gap) && b.State(c).unavailable.None?
    ensures b.State(c).completedSeq <= t.held.gap.throughSeq && b.State(c).inFlight.None?
  {
    hide Tiles;
    hide Join;
    hide ItemBytes;
    hide Gaps;
    hide SkippedBytes;
  }

  /** A consumer that failed: it is off, with an error, and nothing is pending for it any more. */
  ghost predicate GaveUp(b: Buffer, c: Consumer, pending: bool) {
    var s := b.State(c);
    && !s.active && s.unavailable.Some? && s.failurePending == pending && Items(b.nodes, c) == []
    && s.inFlight.None? && s.gapInFlight.None? && s.next.None? && s.pendingGapBytes == 0
  }

  lemma BatchDoneView(b: Buffer, c: Consumer, batch: Batch, pending: bool)
    requires b.State(c).inFlight == Some(batch.span) && b.State(c).completedSeq <= batch.span.last
    ensures var b' := CompleteBatch(b, c, batch, false, pending);
            var s, s' := b.State(c), b'.State(c);
            && SameView(b, b', Other(c))
            && s'.completedSeq == batch.span.last && s'.inFlight.None? && s'.active == s.active && SameGaps(s, s')
            && Items(b'.nodes, c) == Gone(Items(b.nodes, c), s)
  {
    var s, acked := b.State(c), AckNodes(b.nodes, c, batch.span);
    AckOther(b.nodes, c, batch.span);
    AckOwn(b.nodes, c, s);
    hide Items;
    hide AckNodes;
    hide FirstPending;
    hide After;
    hide Gone;
    var done := b.(nodes := acked).With(c, s.(inFlight := None, completedSeq := Max(s.completedSeq, batch.span.last),
                                              next := FirstPending(After(acked, batch.span.last), c)));
    SweptView(done, c);
    SweptView(done, Other(c));
    hide Swept;
  }

  lemma BatchFailedView(b: Buffer, c: Consumer, batch: Batch, pending: bool)
    requires b.State(c).inFlight == Some(batch.span) && b.State(c).gapInFlight.None?
    ensures var b' := CompleteBatch(b, c, batch, true, pending); SameView(b, b', Other(c)) && GaveUp(b', c, pending)
  {
    var acked := AckNodes(b.nodes, c, batch.span);
    AckOther(b.nodes, c, batch.span);
    ReleaseViews(acked, c);
    hide Items;
    hide AckNodes;
    hide ReleaseNodes;
    hide ItemBytes;
    var off := b.(nodes := ReleaseNodes(acked, c)).With(c, BatchFailure(b, c, batch, pending));
    SweptView(off, c);
    SweptView(off, Other(c));
    hide Swept;
  }

  lemma GapDoneView(b: Buffer, c: Consumer, gap: Gap, pending: bool)
    requires b.State(c).gapInFlight == Some(gap) && b.State(c).completedSeq <= gap.throughSeq
    ensures var b' := CompleteGap(b, c, gap, false, pending);
            var s, s' := b.State(c), b'.State(c);
            && SameView(b, b', Other(c))
            && s'.completedSeq == gap.throughSeq && s'.epoch == gap.epoch && s'.gapInFlight.None? && s'.active == s.active
            && SameGaps(s, s') && Items(b'.nodes, c) == Items(b.nodes, c)
  {
    hide Items;
    var s := b.State(c);
    var done := b.With(c, s.(gapInFlight := None, epoch := gap.epoch, completedSeq := Max(s.completedSeq, gap.throughSeq)));
    SweptView(done, c);
    SweptView(done, Other(c));
    hide Swept;
  }

  lemma GapFailedView(b: Buffer, c: Consumer, gap: Gap, pending: bool)
    requires b.State(c).gapInFlight == Some(gap) && b.State(c).inFlight.None?
    ensures var b' := CompleteGap(b, c, gap, true, pending); SameView(b, b', Other(c)) && GaveUp(b', c, pending)
  {
    ReleaseViews(b.nodes, c);
    hide Items;
    hide ReleaseNodes;
    hide ItemBytes;
    var off := b.(nodes := ReleaseNodes(b.nodes, c)).With(c, GapFailure(b, c, gap, pending));
    SweptView(off, c);
    SweptView(off, Other(c));
    hide Swept;
  }

  /** The worker's side of finishing. */
  lemma FinishTracks(w: World, c: Consumer, failed: bool, pending: bool)
    ensures w.T(c).held.HoldsBatch? ==>
              var w', batch := Step(w, FinishBatch(c, failed, pending)), w.T(c).held.batch;
              && w'.b == CompleteBatch(w.b, c, batch, failed, pending) && w'.T(Other(c)) == w.T(Other(c)) && w'.written == w.written
              && w'.T(c) == w.T(c).(held := Idle, log := if failed then w.T(c).log
                                                         else w.T(c).log + [Ingested(batch.payload, batch.span.last)])
    ensures w.T(c).held.HoldsGap? ==>
              var w', gap := Step(w, FinishGap(c, failed, pending)), w.T(c).held.gap;
              && w'.b == CompleteGap(w.b, c, gap, failed, pending) && w'.T(Other(c)) == w.T(Other(c)) && w'.written == w.written
              && w'.T(c) == w.T(c).(held := Idle, log := if failed then w.T(c).log else w.T(c).log + [Skipped(gap)])
  {
    hide CompleteBatch;
    hide CompleteGap;
  }

  /** A finished batch is in the log, and its chunks are pending no more; a failed one ends its consumer. */
  lemma BatchFinishes(w: World, c: Consumer, failed: bool, pending: bool)
    requires Inv(w) && w.T(c).held.HoldsBatch?
    ensures var w', batch := Step(w, FinishBatch(c, failed, pending)), w.T(c).held.batch;
            var s, s' := w.b.State(c), w'.b.State(c);
            && w'.T(c).held == Idle && SameView(w.b, w'.b, Other(c)) && w'.T(Other(c)) == w.T(Other(c)) && w'.written == w.written
            && (if failed then w'.T(c).log == w.T(c).log && GaveUp(w'.b, c, pending)
                else && w'.T(c).log == w.T(c).log + [Ingested(batch.payload, batch.span.last)]
                     && s'.completedSeq == batch.span.last && s'.inFlight.None? && s'.active == s.active && SameGaps(s, s')
                     && Items(w'.b.nodes, c) == Gone(Items(w.b.nodes, c), s))
  {
    hide Inv;
    hide Items;
    InvTracks(w, c);
    HeldBatch(Items(w.b.nodes, c), w.b, c, w.T(c));
    hide ConsumerInv;
    hide Gone;
    hide GaveUp;
    hide CompleteBatch;
    hide SameGaps;
    FinishTracks(w, c, failed, pending);
    hide Step;
    if failed { BatchFailedView(w.b, c, w.T(c).held.batch, pending); } else { BatchDoneView(w.b, c, w.T(c).held.batch, pending); }
  }

  /** A handled gap is in the log; a failed one ends its consumer. */
  lemma GapFinishes(w: World, c: Consumer, failed: bool, pending: bool)
    requires Inv(w) && w.T(c).held.HoldsGap?
    ensures var w', gap := Step(w, FinishGap(c, failed, pending)), w.T(c).held.gap;
            var s, s' := w.b.State(c), w'.b.State(c);
            && w'.T(c).held == Idle && SameView(w.b, w'.b, Other(c)) && w'.T(Other(c)) == w.T(Other(c)) && w'.written == w.written
            && (if failed then w'.T(c).log == w.T(c).log && GaveUp(w'.b, c, pending)
                else && w'.T(c).log == w.T(c).log + [Skipped(gap)]
                     && s'.completedSeq == gap.throughSeq && s'.epoch == gap.epoch && s'.gapInFlight.None? && s'.active == s.active
                     && SameGaps(s, s') && Items(w'.b.nodes, c) == Items(w.b.nodes, c))
  {
    hide Inv;
    hide Items;
    InvTracks(w, c);
    HeldGap(Items(w.b.nodes, c), w.b, c, w.T(c));
    hide ConsumerInv;
    hide GaveUp;
    hide CompleteGap;
    hide SameGaps;
    FinishTracks(w, c, failed, pending);
    hide Step;
    if failed { GapFailedView(w.b, c, w.T(c).held.gap, pending); } else { GapDoneView(w.b, c, w.T(c).held.gap, pending); }
  }

  // ------------------------------------------------------------------ closing, sealing, starting

  lemma CloseForView(b: Buffer, c: Consumer)
    ensures var b' := CloseFor(b, c);
            && SameView(b, b', Other(c)) && Frame(b, b')
            && (if b.State(c).active
                then Loses(b.State(c), Items(b.nodes, c), b'.State(c).(active := true), Items(b'.nodes, c), 0) && !b'.State(c).active
                else b' == b)
  {
    ShedView(b, c);
    hide Shed;
    hide Items;
  }

  /** Closing turns what is queued into gaps, leaves batches in flight, and stops every consumer. */
  lemma CloseTakes(w: World, c: Consumer)
    requires !w.b.closed
    ensures var w' := Step(w, CloseAll);
            && w'.b.closed && !w'.b.State(c).active && w'.T(c) == w.T(c) && w'.written == w.written && w'.b.nextSeq == w.b.nextSeq
            && (if w.b.State(c).active
                then Loses(w.b.State(c), Items(w.b.nodes, c), w'.b.State(c).(active := true), Items(w'.b.nodes, c), 0)
                else SameView(w.b, w'.b, c))
  {
    hide CloseFor;
    hide Items;
    hide Loses;
    var b0 := w.b.(closed := true);
    CloseForView(b0, Live);
    CloseForView(CloseFor(b0, Live), History);
    SweptView(CloseFor(CloseFor(b0, Live), History), c);
    hide Swept;
  }

  /** Sealing, starting a worker and handling a failure set their marks and nothing else. */
  lemma MarksSet(w: World, c: Consumer)
    ensures Step(w, Seal) == w.(b := w.b.(sealed := true))
    ensures w.b.State(c).active && !w.b.closed ==> Step(w, Begin(c)).b.State(c) == w.b.State(c).(started := true)
    ensures Step(w, FailureHandled(c)).b.State(c) == w.b.State(c).(failurePending := false)
    ensures SameView(w.b, Step(w, Begin(c)).b, Other(c)) && SameView(w.b, Step(w, FailureHandled(c)).b, Other(c))
  {
    hide Items;
  }

  /** An eviction frees what is required, or leaves batches in flight only. */
  lemma EvictFrees(w: World, required: int)
    requires Inv(w) && w.b.policy == Drop
    ensures var b' := Step(w, Evict(required)).b;
            w.b.resident - b'.resident >= required || forall n :: n in b'.nodes ==> OutputProgress.Flying(w.b, n)
  {
    hide ConsumerInv;
    OutputProgress.DropsEnough(w.b, required);
    hide DropOldest;
  }

  // ------------------------------------------------------------------ flushing

  /** What a flush is told, and exactly when: a failed consumer's flush waits for the failure to be handled and then fails. */
  lemma FlushAnswers(w: World, c: Consumer, target: nat)
    requires Reachable(w)
    ensures var s, r := w.b.State(c), FlushCheck(w.b, c, target);
            && (r == FlushDone <==> s.unavailable.None? && (!s.active || Reached(w.T(c).log) >= target))
            && (r == FlushFailed <==> s.unavailable.Some? && !s.failurePending)
            && (r == FlushWaits <==> if s.unavailable.Some? then s.failurePending else s.active && Reached(w.T(c).log) < target)
  {
    hide Reachable;
    ReachableInv(w);
    LogFacts(w, c);
    hide Inv;
  }

  lemma ShedRest(b: Buffer, k: nat, d: Consumer, c: Consumer)
    requires k <= |b.nodes|
    ensures SameRest(b.State(c), Shed(b, k, d).State(c))
  {
    AddGapsWeigh(b.State(d), ShedItems(b.nodes, k, d, b.State(d)));
    hide AddGaps;
    hide ShedItems;
    hide ShedNodes;
    hide FirstPending;
    hide Mentions;
  }

  lemma OldestRest(b: Buffer, required: int, c: Consumer)
    ensures SameRest(b.State(c), DropOldest(b, required).State(c))
  {
    var k := DropCount(b.nodes, b.live, b.history, required);
    hide DropCount;
    ShedRest(b, k, Live, c);
    var one := Shed(b, k, Live);
    assert |one.nodes| == |b.nodes|;
    ShedRest(one, k, History, c);
    hide Shed;
  }

  /** The writers' sections leave the error of a consumer that is off alone. */
  lemma WritersLeave(b: Buffer, c: Consumer, required: int, bytes: nat, p: Payload)
    requires !b.State(c).active
    ensures Append(b, p).State(c) == b.State(c) && DropIncoming(b, bytes).State(c) == b.State(c)
    ensures DropOldest(b, required).State(c).unavailable == b.State(c).unavailable
    ensures !DropOldest(b, required).State(c).active
    ensures Close(b).State(c) == b.State(c)
  {
    hide Items;
    hide DropOldest;
    hide DropIncoming;
    hide Append;
    AppendView(b, p, c);
    IncomingView(b, bytes, c);
    OldestRest(b, required, c);
    CloseLeaves(b, c);
    hide Close;
  }

  lemma CloseLeaves(b: Buffer, c: Consumer)
    requires !b.State(c).active
    ensures Close(b).State(c) == b.State(c)
  {
    hide Items;
    hide CloseFor;
    if !b.closed {
      var b0 := b.(closed := true);
      CloseForView(b0, Live);
      CloseForView(CloseFor(b0, Live), History);
      SweptView(CloseFor(CloseFor(b0, Live), History), c);
    }
    hide Swept;
  }

  lemma WriterSteps(w: World, a: Action, c: Consumer)
    requires !w.b.State(c).active && (a.Admit? || a.Squeeze? || a.Commit? || a.Abandon? || a.Evict? || a.Seal? || a.CloseAll?)
    ensures Step(w, a).b.State(c).unavailable == w.b.State(c).unavailable
  {
    hide DropOldest;
    hide DropIncoming;
    hide Append;
    hide Close;
    match a
    case Squeeze(p) =>
      WritersLeave(w.b, c, |p|, 0, []);
      WritersLeave(DropOldest(w.b, |p|), c, 0, |p|, []);
    case Commit => if w.writer.Some? { WritersLeave(w.b, c, 0, 0, w.writer.value); }
    case Abandon => if w.writer.Some? { WritersLeave(w.b, c, 0, |w.writer.value|, []); }
    case Evict(required) => WritersLeave(w.b, c, required, 0, []);
    case CloseAll => WritersLeave(w.b, c, 0, 0, []);
    case _ =>
  }

  lemma WorkerSteps(w: World, a: Action, c: Consumer)
    requires a.Begin? || a.Take? || a.FailureHandled?
    ensures Step(w, a).b.State(c).unavailable == w.b.State(c).unavailable
  {
    hide Fetch;
  }

  /** An error stays an error, whatever comes after. */
  lemma FailureStays(w: World, a: Action, c: Consumer)
    requires Inv(w) && w.b.State(c).unavailable.Some?
    ensures Step(w, a).b.State(c).unavailable.Some?
  {
    hide Inv;
    hide Items;
    hide Step;
    InvTracks(w, c);
    FailedIdle(Items(w.b.nodes, c), w.b, c, w.T(c));
    hide Tracks;
    hide ConsumerInv;
    if a.FinishBatch? || a.FinishGap? {
      OthersStay(w, a.c, c, a.failed, a.failurePending);
    } else if a.Begin? || a.Take? || a.FailureHandled? {
      WorkerSteps(w, a, c);
    } else {
      WriterSteps(w, a, c);
    }
  }

  /** A writer that gives up on an open drop-policy buffer leaves its chunk numbered. */
  lemma AbandonNumbers(w: World)
    requires w.writer.Some? && !w.b.closed && !w.b.sealed && w.b.policy == Drop
    ensures Step(w, Abandon).written == w.written + [w.writer.value] && Step(w, Abandon).b.nextSeq == w.b.nextSeq + 1
  {
    RefusalLoses(w, w.writer.value, Live);
    hide Refused;
  }

  lemma FailedIdle(items: seq<Item>, b: Buffer, c: Consumer, t: Track)
    requires ConsumerInv(items, b.nextSeq, b.closed, b.State(c), t) && b.State(c).unavailable.Some?
    ensures !b.State(c).active && t.held.Idle?
  {
    hide Tiles;
    hide Running;
  }

  /** Finishing is the business of the consumer that finishes. */
  lemma OthersStay(w: World, d: Consumer, c: Consumer, failed: bool, pending: bool)
    requires w.T(c).held.Idle?
    ensures Step(w, FinishBatch(d, failed, pending)).b.State(c) == w.b.State(c)
    ensures Step(w, FinishGap(d, failed, pending)).b.State(c) == w.b.State(c)
  {
    hide Items;
    hide AckNodes;
    hide ReleaseNodes;
    hide Reclaim;
    hide NodeBytes;
    hide ItemBytes;
    hide FirstPending;
    hide After;
  }

  /** A flush of a failed consumer never succeeds, now or later. */
  lemma {:induction false} FlushNeverSucceeds(w: World, later: seq<Action>, c: Consumer, target: nat)
    requires Inv(w) && w.b.State(c).unavailable.Some?
    ensures FlushCheck(Run(w, later).b, c, target) != FlushDone
    ensures var s := Run(w, later).b.State(c);
            FlushCheck(Run(w, later).b, c, target) == if s.failurePending then FlushWaits else FlushFailed
    decreases |later|
  {
    hide Inv;
    hide Step;
    if later != [] {
      StepKeeps(w, later[0]);
      FailureStays(w, later[0], c);
      FlushNeverSucceeds(Step(w, later[0]), later[1..], c, target);
    }
  }

  // ------------------------------------------------------------------ from a write to the log

  /** An overfull drop-policy buffer makes room for a chunk, or numbers it as lost when nothing can go. */
  lemma SqueezeMakesRoom(w: World, p: Payload, c: Consumer)
    requires w.writer.None? && p != [] && w.b.Accepting() && w.b.resident + |p| > w.b.capacity && w.b.policy == Drop
    ensures var w', d := Step(w, Squeeze(p)), DropOldest(w.b, |p|);
            if StuckAt(w.b, p)
            then w'.written == w.written + [p] && (if d.State(c).active then LosesIn(d, w'.b, c, |p|) else SameView(d, w'.b, c))
            else w'.written == w.written && w'.b.resident < w.b.resident
  {
    RefusalLoses(w.(b := DropOldest(w.b, |p|)), p, c);
    hide DropOldest;
    hide Refused;
    hide LosesIn;
  }

  lemma JoinOne(item: Item)
    ensures BatchCount([item]) == 1 && Join([item][..1]) == item.payload
  {
    assert [item][1..] == [] && [item][..1] == [item];
    assert Join([]) == [];
    assert item.payload + [] == item.payload;
  }

  /** A chunk that fits reaches the log of a consumer that is up to date, byte for byte. */
  lemma WriteReachesLog(w: World, p: Payload, c: Consumer, pending: bool)
    requires Inv(w) && w.writer.None? && p != [] && FitsAt(w.b, p)
    requires var s := w.b.State(c); s.active && s.started && !Lossy(s) && w.T(c).held.Idle? && Items(w.b.nodes, c) == []
    ensures var w' := Step(Step(Step(Step(w, Admit(p)), Commit), Take(c)), FinishBatch(c, false, pending));
            w'.T(c).log == w.T(c).log + [Ingested(p, w.b.nextSeq + 1)] && w'.T(c).stream == w.T(c).stream + [p]
  {
    hide Inv;
    hide Items;
    var w1 := Step(w, Admit(p));
    assert w1 == w.(writer := Some(p));
    StepKeeps(w, Admit(p));
    hide Step;
    var w2 := Step(w1, Commit);
    CommitLists(w1, c);
    StepKeeps(w1, Commit);
    var item := Item(w.b.nextSeq + 1, p);
    assert Items(w2.b.nodes, c) == [item];
    JoinOne(item);
    hide Join;
    hide BatchCount;
    FetchAnswers(w2, c);
    hide Fetch;
    var w3 := Step(w2, Take(c));
    TakeHolds(w2, c);
    StepKeeps(w2, Take(c));
    BatchFinishes(w3, c, false, pending);
    FinishTracks(w3, c, false, pending);
  }
}
