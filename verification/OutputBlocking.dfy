/** Under the block policy nothing is ever lost before a consumer fails: the bytes arrive exactly as written. */
module OutputBlocking {
  import opened OutputModel
  import opened OutputLemmas
  import opened OutputProofs
  import opened OutputRuns
  import opened OutputTheorems

  /** No gap was handled, is being handled, or waits; after closing one may wait but is never handed out. */
  ghost predicate NoLoss(w: World, c: Consumer) {
    && Gaps(w.T(c).log) == 0
    && w.b.State(c).gapInFlight.None?
    && (!w.b.closed ==> w.b.State(c).pendingGapBytes == 0)
  }

  ghost predicate Lossless(w: World) {
    w.b.policy == Block ==> NoLoss(w, Live) && NoLoss(w, History)
  }

  lemma AppendQuiet(b: Buffer, p: Payload)
    requires !Lossy(b.live) && !Lossy(b.history)
    ensures var b' := Append(b, p);
            && b'.policy == b.policy && b'.closed == b.closed
            && b'.live == b.live.(next := b'.live.next) && b'.history == b.history.(next := b'.history.next)
  {
    hide Reclaim;
    hide NodeBytes;
  }

  lemma CloseQuiet(b: Buffer, c: Consumer)
    requires b.State(c).gapInFlight.None?
    ensures CloseFor(b, c).State(c).gapInFlight.None?
    ensures CloseFor(b, c).State(Other(c)) == b.State(Other(c))
    ensures CloseFor(b, c).closed == b.closed && CloseFor(b, c).policy == b.policy
  {
    hide ShedNodes;
    hide ShedItems;
    hide FirstPending;
    if b.State(c).active {
      GapsLeaveFlight(b.State(c), ShedItems(b.nodes, |b.nodes|, c, b.State(c)));
    }
  }

  lemma {:induction false} GapsLeaveFlight(s: ConsumerState, items: seq<Item>)
    ensures AddGaps(s, items).gapInFlight == s.gapInFlight
    decreases |items|
  {
    if items != [] { GapsLeaveFlight(AddGap(s, items[0].seqNo, |items[0].payload|), items[1..]); }
  }

  lemma BatchQuiet(b: Buffer, c: Consumer, batch: Batch, failed: bool, failurePending: bool)
    ensures var b' := CompleteBatch(b, c, batch, failed, failurePending);
            && b'.policy == b.policy && b'.closed == b.closed && b'.State(Other(c)) == b.State(Other(c))
            && b'.State(c).gapInFlight == b.State(c).gapInFlight
            && b'.State(c).pendingGapBytes <= b.State(c).pendingGapBytes
  {
    hide AckNodes;
    hide ReleaseNodes;
    hide Reclaim;
    hide NodeBytes;
    hide Items;
    hide ItemBytes;
    hide FirstPending;
    hide After;
  }

  lemma FetchQuiet(b: Buffer, c: Consumer)
    requires b.State(c).gapInFlight.None? && (!b.closed ==> b.State(c).pendingGapBytes == 0)
    ensures var b' := FetchState(b, c);
            && b'.policy == b.policy && b'.closed == b.closed && b'.State(Other(c)) == b.State(Other(c))
            && b'.State(c).gapInFlight.None? && b'.State(c).pendingGapBytes == b.State(c).pendingGapBytes
            && !Fetch(b, c).TakeGap?
  {
    hide Items;
    hide Join;
    hide BatchCount;
  }

  lemma LogQuiet(log: seq<Event>, e: Event)
    ensures Gaps(log + [e]) == Gaps(log) + One(e.Skipped?)
  {
    assert (log + [e])[..|log|] == log;
  }

  lemma StepLossless(w: World, a: Action)
    requires Inv(w) && Lossless(w)
    ensures Step(w, a).b.policy == w.b.policy && Lossless(Step(w, a))
  {
    hide DropOldest;
    hide DropIncoming;
    hide Append;
    hide CloseFor;
    hide Swept;
    hide Fetch;
    hide FetchState;
    hide CompleteBatch;
    hide CompleteGap;
    hide Inv;
    hide Gaps;
    PolicyKept(w, a);
    if w.b.policy == Block {
      match a
      case Commit =>
        if w.writer.Some? && !w.b.closed { AppendQuiet(w.b, w.writer.value); }
      case Take(c) => FetchQuiet(w.b, c);
      case FinishBatch(c, failed, failurePending) =>
        if w.T(c).held.HoldsBatch? {
          var batch := w.T(c).held.batch;
          BatchQuiet(w.b, c, batch, failed, failurePending);
          LogQuiet(w.T(c).log, Ingested(batch.payload, batch.span.last));
        }
      case FinishGap(c, failed, failurePending) => NoGapHeld(w, c);
      case CloseAll =>
        if !w.b.closed {
          var b0 := w.b.(closed := true);
          CloseQuiet(b0, Live);
          CloseQuiet(CloseFor(b0, Live), History);
          SweptStates(CloseFor(CloseFor(b0, Live), History));
        }
      case _ =>
    }
  }

  lemma SweptStates(b: Buffer)
    ensures Swept(b).live == b.live && Swept(b).history == b.history
    ensures Swept(b).closed == b.closed && Swept(b).policy == b.policy
  {
  }

  lemma NoGapHeld(w: World, c: Consumer)
    requires Inv(w) && w.b.State(c).gapInFlight.None?
    ensures !w.T(c).held.HoldsGap?
  {
    hide Inv;
    hide Items;
    hide Tiles;
    InvTracks(w, c);
  }

  lemma PolicyKept(w: World, a: Action)
    ensures Step(w, a).b.policy == w.b.policy
  {
    hide ShedNodes;
    hide ShedState;
    hide Reclaim;
    hide NodeBytes;
    hide DropCount;
    hide AckNodes;
    hide ReleaseNodes;
    hide Items;
    hide ItemBytes;
    hide FirstPending;
    hide After;
    hide AddGap;
    hide Join;
    hide BatchCount;
  }

  lemma {:induction false} RunLossless(w: World, actions: seq<Action>)
    requires Inv(w) && Lossless(w)
    ensures Run(w, actions).b.policy == w.b.policy && Lossless(Run(w, actions))
    decreases |actions|
  {
    hide Inv;
    hide Lossless;
    hide Step;
    if actions != [] {
      StepKeeps(w, actions[0]);
      StepLossless(w, actions[0]);
      RunLossless(Step(w, actions[0]), actions[1..]);
    }
  }

  /** The bytes a consumer ingested, end to end. */
  function Delivered(log: seq<Event>): Payload {
    if log == [] then []
    else Delivered(log[..|log| - 1])
         + match log[|log| - 1] { case Ingested(p, _) => p case Skipped(_) => [] }
  }

  lemma {:induction false} GaplessDelivers(log: seq<Event>, stream: seq<Payload>)
    requires Tiles(log, stream) && Gaps(log) == 0
    ensures Reached(log) <= |stream|
    ensures Delivered(log) == Join(Slice(stream, 0, Reached(log)))
  {
    hide Tiles;
    hide Join;
    if log == [] {
      NoBytes(stream, 0);
      assert Join([]) == [] by { JoinLength([]); }
    } else {
      var init, e := log[..|log| - 1], log[|log| - 1];
      TilesPrefix(log, stream);
      GaplessDelivers(init, stream);
      SliceSplit(stream, 0, Reached(init), e.Through());
      JoinConcat(Slice(stream, 0, Reached(init)), Slice(stream, Reached(init), e.Through()));
    }
  }

  /**
   A block-policy buffer, in every reachable state: a consumer's ingested bytes are exactly
   the first bytes written, no gap was ever handed out, and before closing none waits.
   */
  lemma BlockDeliversExactly(capacity: nat, historyEnabled: bool, actions: seq<Action>, c: Consumer)
    ensures var w := Run(Initial(capacity, Block, historyEnabled), actions);
            && Gaps(w.T(c).log) == 0
            && Reached(w.T(c).log) <= |w.T(c).stream|
            && Delivered(w.T(c).log) == Join(Slice(w.T(c).stream, 0, Reached(w.T(c).log)))
            && (!w.b.closed ==> w.b.State(c).pendingGapBytes == 0)
            && (!w.b.closed && w.b.State(c).unavailable.None? ==> w.b.State(c).droppedBytes == 0)
  {
    hide Inv;
    hide Run;
    hide Tiles;
    hide Reached;
    hide Delivered;
    hide Join;
    var w0 := Initial(capacity, Block, historyEnabled);
    InitialInv(capacity, Block, historyEnabled);
    assert Lossless(w0);
    var w := Run(w0, actions);
    RunKeeps(w0, actions);
    RunLossless(w0, actions);
    LogFacts(w, c);
    GaplessDelivers(w.T(c).log, w.T(c).stream);
    if !w.b.closed && w.b.State(c).unavailable.None? { NothingDropped(w, c); }
  }

  lemma NothingDropped(w: World, c: Consumer)
    requires Inv(w) && NoLoss(w, c) && !w.b.closed && w.b.State(c).unavailable.None?
    ensures w.b.State(c).droppedBytes == 0
  {
    hide Inv;
    hide Items;
    hide Tiles;
    InvTracks(w, c);
    NoneSkipped(w.T(c).log);
  }

  lemma {:induction false} NoneSkipped(log: seq<Event>)
    requires Gaps(log) == 0
    ensures SkippedBytes(log) == 0
  {
    if log != [] { NoneSkipped(log[..|log| - 1]); }
  }
}
