/** What a reader of the output buffer may rely on, for every run from a fresh buffer. */
module OutputTheorems {
  import opened OutputModel
  import opened OutputLemmas
  import opened OutputProofs
  import opened OutputRuns

  ghost predicate Reachable(w: World) {
    exists capacity: nat, policy: Policy, historyEnabled: bool, actions: seq<Action> ::
      w == Run(Initial(capacity, policy, historyEnabled), actions)
  }

  lemma ReachableInv(w: World)
    requires Reachable(w)
    ensures Inv(w)
  {
    hide Inv;
    hide Initial;
    hide Run;
    var capacity: nat, policy: Policy, historyEnabled: bool, actions: seq<Action> :|
      w == Run(Initial(capacity, policy, historyEnabled), actions);
    InitialInv(capacity, policy, historyEnabled);
    RunKeeps(Initial(capacity, policy, historyEnabled), actions);
  }

  // ------------------------------------------------------------------ one stream for both consumers

  /** A consumer's stream is the front of everything written. */
  ghost predicate OneStream(w: World) {
    && |w.written| == w.b.nextSeq
    && w.live.stream <= w.written
    && w.history.stream <= w.written
  }

  /** Nothing written, accepted or logged is ever taken back. */
  ghost predicate Grew(w: World, w': World) {
    && w.written <= w'.written
    && w.live.stream <= w'.live.stream && w.live.log <= w'.live.log
    && w.history.stream <= w'.history.stream && w.history.log <= w'.history.log
  }

  lemma NumberingKeepsStream(w: World, b: Buffer, p: Payload)
    requires Inv(w) && OneStream(w) && b.nextSeq == w.b.nextSeq + 1
    ensures OneStream(Numbered(w, b, p)) && Grew(w, Numbered(w, b, p))
  {
    hide Running;
    hide Tiles;
    hide Failed;
    hide Items;
  }

  lemma SectionSeqs(b: Buffer, required: int, p: Payload)
    ensures DropOldest(b, required).nextSeq == b.nextSeq
    ensures DropIncoming(b, |p|).nextSeq == b.nextSeq + 1
    ensures Append(b, p).nextSeq == b.nextSeq + 1
    ensures Close(b).nextSeq == b.nextSeq
  {
    hide ShedNodes;
    hide ShedState;
    hide AddGap;
    hide DropCount;
    hide Reclaim;
    hide NodeBytes;
  }

  lemma WorkerSeqs(b: Buffer, c: Consumer, batch: Batch, gap: Gap, failed: bool, failurePending: bool)
    ensures CompleteBatch(b, c, batch, failed, failurePending).nextSeq == b.nextSeq
    ensures CompleteGap(b, c, gap, failed, failurePending).nextSeq == b.nextSeq
    ensures FetchState(b, c).nextSeq == b.nextSeq
  {
    hide Items;
    hide AckNodes;
    hide ReleaseNodes;
    hide Reclaim;
    hide NodeBytes;
    hide ItemBytes;
    hide FirstPending;
    hide After;
    hide BatchCount;
    hide Join;
  }

  lemma WriterGrows(w: World, p: Payload)
    requires Inv(w) && OneStream(w)
    ensures OneStream(Refused(w, p)) && Grew(w, Refused(w, p))
    ensures OneStream(Numbered(w, Append(w.b, p), p)) && Grew(w, Numbered(w, Append(w.b, p), p))
  {
    hide Inv;
    hide OneStream;
    hide Grew;
    hide DropIncoming;
    hide Append;
    SectionSeqs(w.b, 0, p);
    NumberingKeepsStream(w, DropIncoming(w.b, |p|), p);
    NumberingKeepsStream(w, Append(w.b, p), p);
  }

  lemma BufferMoves(w: World, b: Buffer)
    requires OneStream(w) && b.nextSeq == w.b.nextSeq
    ensures OneStream(w.(b := b)) && Grew(w, w.(b := b))
  {
  }

  lemma TrackMoves(w: World, b: Buffer, c: Consumer, t: Track)
    requires OneStream(w) && b.nextSeq == w.b.nextSeq
    requires t.stream == w.T(c).stream && w.T(c).log <= t.log
    ensures OneStream(w.(b := b).With(c, t)) && Grew(w, w.(b := b).With(c, t))
  {
  }

  /** Streams and logs only ever grow, and stay fronts of the one written stream. */
  lemma StepGrows(w: World, a: Action)
    requires Inv(w) && OneStream(w)
    ensures OneStream(Step(w, a)) && Grew(w, Step(w, a))
  {
    hide Inv;
    hide OneStream;
    hide Grew;
    hide DropOldest;
    hide DropIncoming;
    hide Append;
    hide Close;
    hide Fetch;
    hide FetchState;
    hide CompleteBatch;
    hide CompleteGap;
    hide Numbered;
    var noBatch, noGap := Batch(Span(0, 0), []), Gap(0, 0, 0);
    BufferMoves(w, w.b);
    match a
    case Admit(p) => Unmoved(w, w.(writer := Some(p)));
    case Squeeze(p) =>
      SectionSeqs(w.b, |p|, p);
      DropOldestKeeps(w, |p|);
      var d := w.(b := DropOldest(w.b, |p|));
      BufferMoves(w, d.b);
      WriterGrows(d, p);
      GrewTwice(w, d, Refused(d, p));
    case Commit =>
      Unmoved(w, w.(writer := None));
      if w.writer.Some? { WriterGrows(w, w.writer.value); }
    case Abandon =>
      Unmoved(w, w.(writer := None));
      if w.writer.Some? { WriterGrows(w, w.writer.value); }
    case Evict(required) =>
      SectionSeqs(w.b, required, []);
      BufferMoves(w, DropOldest(w.b, required));
    case Begin(c) => BufferMoves(w, w.b.With(c, w.b.State(c).(started := true)));
    case Take(c) =>
      WorkerSeqs(w.b, c, noBatch, noGap, false, false);
      TrackMoves(w, FetchState(w.b, c), c, Step(w, a).T(c));
    case FinishBatch(c, failed, failurePending) =>
      if w.T(c).held.HoldsBatch? {
        var batch := w.T(c).held.batch;
        WorkerSeqs(w.b, c, batch, noGap, failed, failurePending);
        TrackMoves(w, CompleteBatch(w.b, c, batch, failed, failurePending), c, Step(w, a).T(c));
      }
    case FinishGap(c, failed, failurePending) =>
      if w.T(c).held.HoldsGap? {
        var gap := w.T(c).held.gap;
        WorkerSeqs(w.b, c, noBatch, gap, failed, failurePending);
        TrackMoves(w, CompleteGap(w.b, c, gap, failed, failurePending), c, Step(w, a).T(c));
      }
    case FailureHandled(c) => BufferMoves(w, w.b.With(c, w.b.State(c).(failurePending := false)));
    case Seal => BufferMoves(w, w.b.(sealed := true));
    case CloseAll =>
      SectionSeqs(w.b, 0, []);
      BufferMoves(w, Close(w.b));
  }

  lemma Unmoved(w: World, w': World)
    requires OneStream(w) && w'.b == w.b && w'.written == w.written && w'.live == w.live && w'.history == w.history
    ensures OneStream(w') && Grew(w, w')
  {
  }

  lemma GrewTwice(w: World, w1: World, w2: World)
    requires Grew(w, w1) && Grew(w1, w2)
    ensures Grew(w, w2)
  {
  }

  lemma {:induction false} RunGrows(w: World, actions: seq<Action>)
    requires Inv(w) && OneStream(w)
    ensures OneStream(Run(w, actions)) && Grew(w, Run(w, actions))
    decreases |actions|
  {
    hide Inv;
    hide OneStream;
    hide Step;
    if actions != [] {
      StepKeeps(w, actions[0]);
      StepGrows(w, actions[0]);
      RunGrows(Step(w, actions[0]), actions[1..]);
      GrewTwice(w, Step(w, actions[0]), Run(w, actions));
    }
  }

  lemma ReachableStream(w: World)
    requires Reachable(w)
    ensures OneStream(w)
  {
    hide Inv;
    hide Run;
    var capacity: nat, policy: Policy, historyEnabled: bool, actions: seq<Action> :|
      w == Run(Initial(capacity, policy, historyEnabled), actions);
    InitialInv(capacity, policy, historyEnabled);
    RunGrows(Initial(capacity, policy, historyEnabled), actions);
  }

  lemma InvTracks(w: World, c: Consumer)
    requires Inv(w)
    ensures Tracks(w, c)
  {
    hide ConsumerInv;
    hide Items;
  }

  /** The parts of the invariant that speak of the log. */
  lemma LogFacts(w: World, c: Consumer)
    requires Inv(w)
    ensures Tiles(w.T(c).log, w.T(c).stream)
    ensures w.b.State(c).active ==> |w.T(c).stream| == w.b.nextSeq
    ensures w.b.State(c).unavailable.None? ==> w.b.State(c).completedSeq == Reached(w.T(c).log)
  {
    hide Items;
    hide Tiles;
    hide Inv;
    InvTracks(w, c);
  }

  // ------------------------------------------------------------------ the main theorems

  /**
   In every reachable state each consumer's log accounts, in order and without overlap or
   hole, for a front of the stream: a batch carries the bytes written there and a gap
   weighs exactly the bytes missing there. Both consumers' streams are fronts of one stream.
   */
  lemma LogTilesStream(w: World, c: Consumer)
    requires Reachable(w)
    ensures Tiles(w.T(c).log, w.T(c).stream)
    ensures w.T(c).stream <= w.written
    ensures w.b.State(c).active ==> w.T(c).stream == w.written
  {
    hide Inv;
    hide Tiles;
    hide Reachable;
    ReachableInv(w);
    ReachableStream(w);
    LogFacts(w, c);
  }

  /** The number of bytes a consumer still has marked in the list. */
  ghost function StillPending(w: World, c: Consumer): nat {
    ItemBytes(Items(w.b.nodes, c))
  }

  ghost function AcceptedBytes(w: World, c: Consumer): nat {
    Bytes(w.T(c).stream, 0, |w.T(c).stream|)
  }

  /** accepted = ingested + dropped + still pending, and the counters say how often a gap opened. */
  lemma BytesConserved(w: World, c: Consumer)
    requires Reachable(w)
    ensures AcceptedBytes(w, c) == IngestedBytes(w.T(c).log) + w.b.State(c).droppedBytes + StillPending(w, c)
    ensures var s := w.b.State(c);
            s.unavailable.None? ==>
              s.gapCount == s.epoch + One(s.gapInFlight.Some?) + One(s.pendingGapBytes > 0)
              && s.epoch == Gaps(w.T(c).log)
  {
    ReachableInv(w);
    var items, s, t := Items(w.b.nodes, c), w.b.State(c), w.T(c);
    hide Items;
    hide Inv;
    assert Tracks(w, c) by { InvTracks(w, c); }
    ConservedFor(items, w.b.nextSeq, w.b.closed, s, t);
  }

  lemma ConservedFor(items: seq<Item>, nextSeq: nat, closed: bool, s: ConsumerState, t: Track)
    requires ConsumerInv(items, nextSeq, closed, s, t)
    ensures Bytes(t.stream, 0, |t.stream|) == IngestedBytes(t.log) + s.droppedBytes + ItemBytes(items)
    ensures s.unavailable.None? ==>
              s.gapCount == s.epoch + One(s.gapInFlight.Some?) + One(s.pendingGapBytes > 0) && s.epoch == Gaps(t.log)
  {
    hide Tiles;
    hide Join;
    hide Slice;
    hide IngestedBytes;
    hide SkippedBytes;
    hide Gaps;
    hide Reached;
    if s.unavailable.None? {
      PartsOf(items, s, t);
      NoFlightBytes(s, t.stream);
    } else {
      assert ItemBytes(items) == 0;
    }
  }

  lemma NoFlightBytes(s: ConsumerState, stream: seq<Payload>)
    requires Positions(s, |stream|) && Weighs(s, stream)
    ensures Bytes(stream, s.completedSeq, FlightEnd(s))
            == if s.inFlight.Some? then Bytes(stream, s.completedSeq, FlightEnd(s)) else GapFlightBytes(s)
  {
    NoBytes(stream, s.completedSeq);
  }

  /** A failed consumer's error reports exactly the bytes it neither ingested nor was told about. */
  lemma FailureReportsAll(w: World, c: Consumer)
    requires Reachable(w) && w.b.State(c).unavailable.Some?
    ensures w.b.State(c).unavailable.value.droppedBytes
            == AcceptedBytes(w, c) - IngestedBytes(w.T(c).log) - SkippedBytes(w.T(c).log)
    ensures !w.b.State(c).active && Items(w.b.nodes, c) == []
  {
    ReachableInv(w);
    hide Items;
    hide Tiles;
    InvTracks(w, c);
  }

  /** The list never outgrows its capacity, and every chunk listed is wanted by someone. */
  lemma ResidentBounded(w: World)
    requires Reachable(w)
    ensures w.b.resident == NodeBytes(w.b.nodes) <= w.b.capacity
    ensures forall i :: 0 <= i < |w.b.nodes| ==> w.b.nodes[i].pending != {}
  {
    ReachableInv(w);
    hide ConsumerInv;
  }

  // ------------------------------------------------------------------ flushing

  datatype FlushAnswer = FlushDone | FlushFailed | FlushWaits

  /** One pass of Flush's loop, its context not cancelled. */
  function FlushCheck(b: Buffer, c: Consumer, target: nat): FlushAnswer {
    var s := b.State(c);
    if s.unavailable.Some? then (if s.failurePending then FlushWaits else FlushFailed)
    else if !s.active || s.completedSeq >= target then FlushDone
    else FlushWaits
  }

  /**
   A flush that started in w and succeeds later on an active consumer: every chunk accepted
   before the call has been ingested or covered by a gap whose handler succeeded.
   */
  lemma FlushSound(w: World, later: seq<Action>, c: Consumer)
    requires Reachable(w)
    requires var w' := Run(w, later);
             w'.b.State(c).active && FlushCheck(w'.b, c, w.b.nextSeq) == FlushDone
    ensures var t' := Run(w, later).T(c);
            && w.written <= t'.stream
            && Tiles(t'.log, t'.stream)
            && |w.written| <= Reached(t'.log)
  {
    hide Run;
    hide Inv;
    hide Tiles;
    hide Reachable;
    ReachableInv(w);
    ReachableStream(w);
    RunGrows(w, later);
    RunKeeps(w, later);
    var w' := Run(w, later);
    LogFacts(w', c);
    assert w'.T(c).stream == w'.written;
  }

  /** A drained consumer of a sealed buffer has everything: `next` stops only after the whole stream. */
  lemma DrainedHasAll(w: World, c: Consumer)
    requires Reachable(w) && w.T(c).held.Idle?
    requires w.b.State(c).active && Fetch(w.b, c) == Stop
    ensures Reached(w.T(c).log) == |w.T(c).stream| == w.b.nextSeq
    ensures Tiles(w.T(c).log, w.T(c).stream)
  {
    ReachableInv(w);
    InvTracks(w, c);
    var items := Items(w.b.nodes, c);
    DrainedFor(items, w.b, c, w.T(c));
  }

  lemma DrainedFor(items: seq<Item>, b: Buffer, c: Consumer, t: Track)
    requires items == Items(b.nodes, c) && ConsumerInv(items, b.nextSeq, b.closed, b.State(c), t)
    requires t.held.Idle? && b.State(c).active && Fetch(b, c) == Stop
    ensures Reached(t.log) == |t.stream| == b.nextSeq && Tiles(t.log, t.stream)
  {
    hide Items;
    hide Tiles;
    hide Join;
    hide ItemBytes;
    hide Gaps;
    hide SkippedBytes;
  }
}
