/**
 What every interleaving of the output buffer's critical sections keeps.

 A `World` is the buffer, the writer that holds the write lock between its capacity check
 and its append, every chunk numbered so far, and per consumer a `Track`: the chunks accepted for it, the log of what its
 worker ingested or was told it lost, and what the worker holds now. `Step` is one critical
 section by any thread, and `Reachable` closes it over all runs.
 */
module OutputProofs {
  import opened OutputModel
  import opened OutputLemmas

  // ------------------------------------------------------------------ history

  datatype Event = Ingested(payload: Payload, throughSeq: nat) | Skipped(gap: Gap)
  {
    function Through(): nat {
      match this
      case Ingested(_, through) => through
      case Skipped(gap) => gap.throughSeq
    }
  }

  datatype Held = Idle | HoldsBatch(batch: Batch) | HoldsGap(gap: Gap)

  datatype Track = Track(stream: seq<Payload>, log: seq<Event>, held: Held)

  datatype World = World(b: Buffer, writer: Option<Payload>, written: seq<Payload>, live: Track, history: Track)
  {
    function T(c: Consumer): Track {
      if c == Live then live else history
    }

    function With(c: Consumer, t: Track): World {
      if c == Live then this.(live := t) else this.(history := t)
    }
  }

  // ------------------------------------------------------------------ the accepted stream

  /** The chunks numbered lo+1 to hi of a stream. */
  function Slice(stream: seq<Payload>, lo: nat, hi: nat): (r: seq<Item>)
    requires lo <= hi <= |stream|
    ensures |r| == hi - lo
    ensures forall i :: 0 <= i < |r| ==> r[i] == Item(lo + i + 1, stream[lo + i])
  {
    seq(hi - lo, i requires 0 <= i < hi - lo => Item(lo + i + 1, stream[lo + i]))
  }

  function Bytes(stream: seq<Payload>, lo: nat, hi: nat): nat
    requires lo <= hi <= |stream|
  {
    ItemBytes(Slice(stream, lo, hi))
  }

  lemma SliceSplit(stream: seq<Payload>, lo: nat, mid: nat, hi: nat)
    requires lo <= mid <= hi <= |stream|
    ensures Slice(stream, lo, hi) == Slice(stream, lo, mid) + Slice(stream, mid, hi)
    ensures Bytes(stream, lo, hi) == Bytes(stream, lo, mid) + Bytes(stream, mid, hi)
  {
    assert Slice(stream, lo, hi) == Slice(stream, lo, mid) + Slice(stream, mid, hi);
    BytesConcat(Slice(stream, lo, mid), Slice(stream, mid, hi));
  }

  lemma NoBytes(stream: seq<Payload>, at: nat)
    requires at <= |stream|
    ensures Slice(stream, at, at) == [] && Bytes(stream, at, at) == 0
  {
  }

  lemma SliceGrows(stream: seq<Payload>, p: Payload, lo: nat, hi: nat)
    requires lo <= hi <= |stream|
    ensures Slice(stream + [p], lo, hi) == Slice(stream, lo, hi)
    ensures Bytes(stream + [p], lo, hi) == Bytes(stream, lo, hi)
  {
    assert Slice(stream + [p], lo, hi) == Slice(stream, lo, hi);
  }

  ghost predicate NonEmpty(stream: seq<Payload>) {
    forall i :: 0 <= i < |stream| ==> stream[i] != []
  }

  lemma BytesPositive(stream: seq<Payload>, lo: nat, hi: nat)
    requires lo <= hi <= |stream| && NonEmpty(stream)
    ensures Bytes(stream, lo, hi) == 0 <==> lo == hi
  {
    if lo < hi {
      assert Slice(stream, lo, hi)[0].payload == stream[lo];
    }
  }

  // ------------------------------------------------------------------ the delivered log

  /** Where event i of a log starts: just past the chunks the events before it covered. */
  function Start(log: seq<Event>, i: nat): nat
    requires i <= |log|
  {
    if i == 0 then 0 else log[i - 1].Through()
  }

  function Reached(log: seq<Event>): nat {
    Start(log, |log|)
  }

  /** An event accounts for exactly the chunks from lo+1 on to its end. */
  ghost predicate Covers(e: Event, stream: seq<Payload>, lo: nat) {
    && lo < e.Through() <= |stream|
    && match e
       case Ingested(payload, through) => payload == Join(Slice(stream, lo, through))
       case Skipped(gap) => gap.droppedBytes == Bytes(stream, lo, gap.throughSeq)
  }

  /** The log accounts for a prefix of the stream, in order, without overlap or hole. */
  ghost predicate Tiles(log: seq<Event>, stream: seq<Payload>) {
    forall i :: 0 <= i < |log| ==> Covers(log[i], stream, Start(log, i))
  }

  function IngestedBytes(log: seq<Event>): nat {
    if log == [] then 0
    else IngestedBytes(log[..|log| - 1])
         + match log[|log| - 1] { case Ingested(p, _) => |p| case Skipped(_) => 0 }
  }

  function SkippedBytes(log: seq<Event>): nat {
    if log == [] then 0
    else SkippedBytes(log[..|log| - 1])
         + match log[|log| - 1] { case Ingested(_, _) => 0 case Skipped(gap) => gap.droppedBytes }
  }

  function Gaps(log: seq<Event>): nat {
    if log == [] then 0
    else Gaps(log[..|log| - 1]) + if log[|log| - 1].Skipped? then 1 else 0
  }

  lemma TilesExtend(log: seq<Event>, stream: seq<Payload>, e: Event)
    requires Tiles(log, stream) && Covers(e, stream, Reached(log))
    ensures Tiles(log + [e], stream)
    ensures Reached(log + [e]) == e.Through()
    ensures IngestedBytes(log + [e]) == IngestedBytes(log) + if e.Ingested? then |e.payload| else 0
    ensures SkippedBytes(log + [e]) == SkippedBytes(log) + if e.Skipped? then e.gap.droppedBytes else 0
    ensures Gaps(log + [e]) == Gaps(log) + if e.Skipped? then 1 else 0
  {
    var longer := log + [e];
    assert longer[..|longer| - 1] == log;
    forall i | 0 <= i < |longer| ensures Covers(longer[i], stream, Start(longer, i)) {
      if i < |log| {
        assert Start(longer, i) == Start(log, i) && longer[i] == log[i];
      } else {
        assert Start(longer, i) == Reached(log);
      }
    }
  }

  lemma TilesGrow(log: seq<Event>, stream: seq<Payload>, p: Payload)
    requires Tiles(log, stream)
    ensures Tiles(log, stream + [p])
  {
    forall i | 0 <= i < |log| ensures Covers(log[i], stream + [p], Start(log, i)) {
      SliceGrows(stream, p, Start(log, i), log[i].Through());
    }
  }

  lemma CoveredBytes(e: Event, stream: seq<Payload>, lo: nat)
    requires Covers(e, stream, lo)
    ensures Bytes(stream, 0, e.Through())
            == Bytes(stream, 0, lo) + match e { case Ingested(p, _) => |p| case Skipped(gap) => gap.droppedBytes }
  {
    hide ItemBytes;
    hide Join;
    SliceSplit(stream, 0, lo, e.Through());
    JoinLength(Slice(stream, lo, e.Through()));
  }

  lemma TilesPrefix(log: seq<Event>, stream: seq<Payload>)
    requires Tiles(log, stream) && log != []
    ensures Tiles(log[..|log| - 1], stream)
    ensures Covers(log[|log| - 1], stream, Reached(log[..|log| - 1]))
  {
    hide Covers;
    var init := log[..|log| - 1];
    assert Start(log, |log| - 1) == Reached(init);
    forall i | 0 <= i < |init| ensures Covers(init[i], stream, Start(init, i)) {
      assert Start(log, i) == Start(init, i);
    }
  }

  /** A tiling log's bytes are exactly the bytes of the prefix it reached. */
  lemma {:induction false} TiledBytes(log: seq<Event>, stream: seq<Payload>)
    requires Tiles(log, stream)
    ensures Reached(log) <= |stream|
    ensures IngestedBytes(log) + SkippedBytes(log) == Bytes(stream, 0, Reached(log))
  {
    hide ItemBytes;
    hide Tiles;
    if log == [] {
      NoBytes(stream, 0);
    } else {
      var init, e := log[..|log| - 1], log[|log| - 1];
      TilesPrefix(log, stream);
      TiledBytes(init, stream);
      CoveredBytes(e, stream, Reached(init));
    }
  }

  // ------------------------------------------------------------------ the invariant

  /** The last chunk the worker holds, in a batch or in a gap. */
  function FlightEnd(s: ConsumerState): nat {
    if s.inFlight.Some? then s.inFlight.value.last
    else if s.gapInFlight.Some? then s.gapInFlight.value.throughSeq
    else s.completedSeq
  }

  /** The last chunk the pending gap covers. */
  function GapEnd(s: ConsumerState): nat {
    if s.pendingGapBytes > 0 then s.pendingGapSeq else FlightEnd(s)
  }

  /** completed <= in flight <= pending gap <= queued. */
  ghost predicate Positions(s: ConsumerState, n: nat) {
    && s.completedSeq <= FlightEnd(s) <= GapEnd(s) <= n
    && (!s.active ==> GapEnd(s) == n)
    && (s.inFlight.Some? ==>
          s.gapInFlight.None? && s.inFlight.value.first == s.completedSeq + 1 && s.completedSeq < FlightEnd(s))
    && (s.gapInFlight.Some? ==> s.completedSeq < FlightEnd(s))
  }

  /** The chunks of the batch in flight. */
  ghost function FlightItems(s: ConsumerState, stream: seq<Payload>): seq<Item>
    requires Positions(s, |stream|)
  {
    if s.inFlight.Some? then Slice(stream, s.completedSeq, FlightEnd(s)) else []
  }

  /** Marked in the list: the batch in flight, then everything past the pending gap. */
  ghost predicate Sees(items: seq<Item>, s: ConsumerState, stream: seq<Payload>)
    requires Positions(s, |stream|)
  {
    items == FlightItems(s, stream) + Slice(stream, GapEnd(s), |stream|)
  }

  /** The cursor stands on the first queued chunk, or on the batch while one is in flight. */
  ghost predicate Cursor(s: ConsumerState, n: nat) {
    if s.inFlight.None? then s.next == (if GapEnd(s) < n then Some(GapEnd(s) + 1) else None)
    else s.next == None || s.next == Some(s.completedSeq + 1)
  }

  /** The pending gap and the gap in flight weigh exactly the chunks they stand for. */
  ghost predicate Weighs(s: ConsumerState, stream: seq<Payload>)
    requires Positions(s, |stream|)
  {
    && s.pendingGapBytes == Bytes(stream, FlightEnd(s), GapEnd(s))
    && (s.pendingGapBytes == 0 ==> s.pendingGapSeq == 0)
    && (s.gapInFlight.Some? ==>
          s.gapInFlight.value == Gap(s.epoch + 1, Bytes(stream, s.completedSeq, FlightEnd(s)), FlightEnd(s)))
  }

  /** The worker holds the batch or the gap in flight, and a batch carries the bytes written. */
  ghost predicate Holding(s: ConsumerState, t: Track)
    requires Positions(s, |t.stream|)
  {
    t.held == if s.inFlight.Some? then HoldsBatch(Batch(s.inFlight.value, Join(FlightItems(s, t.stream))))
              else if s.gapInFlight.Some? then HoldsGap(s.gapInFlight.value) else Idle
  }

  function One(present: bool): nat { if present then 1 else 0 }

  function GapFlightBytes(s: ConsumerState): nat {
    if s.gapInFlight.Some? then s.gapInFlight.value.droppedBytes else 0
  }

  ghost predicate Counts(s: ConsumerState, log: seq<Event>) {
    && s.completedSeq == Reached(log)
    && s.epoch == Gaps(log)
    && s.gapCount == s.epoch + One(s.gapInFlight.Some?) + One(s.pendingGapBytes > 0)
    && s.droppedBytes == SkippedBytes(log) + GapFlightBytes(s) + s.pendingGapBytes
  }

  ghost predicate Running(items: seq<Item>, s: ConsumerState, t: Track) {
    && Positions(s, |t.stream|)
    && Sees(items, s, t.stream)
    && Cursor(s, |t.stream|)
    && Weighs(s, t.stream)
    && Holding(s, t)
    && Counts(s, t.log)
  }

  /** A failed consumer holds nothing, and its error accounts for all it never got. */
  ghost predicate Failed(items: seq<Item>, s: ConsumerState, t: Track)
    requires s.unavailable.Some?
  {
    var total := Bytes(t.stream, 0, |t.stream|);
    && !s.active && s.inFlight.None? && s.gapInFlight.None? && s.next.None?
    && s.pendingGapBytes == 0
    && items == [] && t.held == Idle
    && s.unavailable.value.droppedBytes == total - IngestedBytes(t.log) - SkippedBytes(t.log)
    && s.droppedBytes == total - IngestedBytes(t.log)
  }

  ghost predicate ConsumerInv(items: seq<Item>, nextSeq: nat, closed: bool, s: ConsumerState, t: Track) {
    && NonEmpty(t.stream)
    && |t.stream| <= nextSeq
    && (s.active ==> |t.stream| == nextSeq && !closed && s.unavailable.None?)
    && Tiles(t.log, t.stream)
    && if s.unavailable.Some? then Failed(items, s, t) else Running(items, s, t)
  }

  ghost predicate BufferInv(b: Buffer) {
    && Shape(b.nodes, b.nextSeq)
    && (forall i :: 0 <= i < |b.nodes| ==> b.nodes[i].pending != {})
    && b.resident == NodeBytes(b.nodes)
    && b.resident <= b.capacity
  }

  ghost predicate WriterInv(w: World) {
    w.writer.Some? ==> w.writer.value != [] && w.b.resident + |w.writer.value| <= w.b.capacity
  }

  ghost predicate Tracks(w: World, c: Consumer) {
    ConsumerInv(Items(w.b.nodes, c), w.b.nextSeq, w.b.closed, w.b.State(c), w.T(c))
  }

  ghost predicate Inv(w: World) {
    BufferInv(w.b) && WriterInv(w) && Tracks(w, Live) && Tracks(w, History)
  }

  // ------------------------------------------------------------------ shedding

  /** Turning a run of queued chunks into a gap, counter by counter. */
  lemma {:induction false} AddGapsSlice(s: ConsumerState, stream: seq<Payload>, lo: nat, hi: nat)
    requires lo <= hi <= |stream| && NonEmpty(stream)
    requires s.pendingGapSeq <= lo
    ensures AddGaps(s, Slice(stream, lo, hi)) ==
            s.(gapCount := if s.pendingGapBytes == 0 && lo < hi then s.gapCount + 1 else s.gapCount,
               pendingGapBytes := s.pendingGapBytes + Bytes(stream, lo, hi),
               pendingGapSeq := if lo < hi then hi else s.pendingGapSeq,
               droppedBytes := s.droppedBytes + Bytes(stream, lo, hi))
    decreases hi - lo
  {
    if lo < hi {
      var all := Slice(stream, lo, hi);
      assert all[1..] == Slice(stream, lo + 1, hi);
      assert all[0].payload == stream[lo];
      AddGapsSlice(AddGap(s, lo + 1, |stream[lo]|), stream, lo + 1, hi);
    }
  }

  /** Cutting a view into the nodes visited and the rest cuts the queue behind the batch in flight. */
  lemma CutQueue(flight: seq<Item>, queue: seq<Item>, pre: seq<Item>, post: seq<Item>, s: ConsumerState)
    returns (j: nat)
    requires pre + post == flight + queue
    requires forall i :: 0 <= i < |flight| ==> InFlight(s, flight[i].seqNo)
    requires forall i :: 0 <= i < |queue| ==> !InFlight(s, queue[i].seqNo)
    ensures j <= |queue|
    ensures Gone(pre, s) == queue[..j]
    ensures Kept(pre, s) + post == flight + queue[j..]
    ensures j > 0 ==> post == queue[j..]
    ensures post == [] ==> j == |queue|
  {
    if |pre| <= |flight| {
      j := 0;
      assert pre == (pre + post)[..|pre|] == flight[..|pre|];
      AllInFlight(pre, s);
    } else {
      j := |pre| - |flight|;
      assert pre == (pre + post)[..|pre|] == flight + queue[..j];
      assert post == (pre + post)[|pre|..] == queue[j..];
      AllInFlight(flight, s);
      NoneInFlight(queue[..j], s);
      KeptGoneConcat(flight, queue[..j], s);
    }
  }

  lemma Cut(pre: seq<Item>, post: seq<Item>, s: ConsumerState, stream: seq<Payload>) returns (j: nat)
    requires Positions(s, |stream|) && Sees(pre + post, s, stream)
    ensures GapEnd(s) + j <= |stream|
    ensures Gone(pre, s) == Slice(stream, GapEnd(s), GapEnd(s) + j)
    ensures Kept(pre, s) + post == FlightItems(s, stream) + Slice(stream, GapEnd(s) + j, |stream|)
    ensures j > 0 ==> post == Slice(stream, GapEnd(s) + j, |stream|)
    ensures post == [] ==> GapEnd(s) + j == |stream|
  {
    hide Kept;
    hide Gone;
    var n, g := |stream|, GapEnd(s);
    var flight, queue := FlightItems(s, stream), Slice(stream, g, n);
    j := CutQueue(flight, queue, pre, post, s);
    assert queue[..j] == Slice(stream, g, g + j);
    assert queue[j..] == Slice(stream, g + j, n);
  }

  lemma ShedSplit(nodes: seq<Node>, k: nat, c: Consumer, s: ConsumerState, stream: seq<Payload>) returns (j: nat)
    requires k <= |nodes|
    requires Positions(s, |stream|) && Sees(Items(nodes, c), s, stream)
    ensures GapEnd(s) + j <= |stream|
    ensures ShedItems(nodes, k, c, s) == Slice(stream, GapEnd(s), GapEnd(s) + j)
    ensures Items(ShedNodes(nodes, k, c, s), c) == FlightItems(s, stream) + Slice(stream, GapEnd(s) + j, |stream|)
    ensures j > 0 ==> Items(nodes[k..], c) == Slice(stream, GapEnd(s) + j, |stream|)
    ensures k == |nodes| ==> GapEnd(s) + j == |stream|
  {
    assert nodes == nodes[..k] + nodes[k..];
    ItemsConcat(nodes[..k], nodes[k..], c);
    j := Cut(Items(nodes[..k], c), Items(nodes[k..], c), s, stream);
    ShedGone(nodes, k, c, s);
    ShedOwn(nodes, k, c, s);
  }

  /** The counters after shedding j queued chunks. */
  lemma ShedCounters(s: ConsumerState, stream: seq<Payload>, j: nat, next: Option<nat>)
    requires NonEmpty(stream)
    requires Positions(s, |stream|) && Weighs(s, stream) && GapEnd(s) + j <= |stream|
    ensures var s' := AddGaps(s, Slice(stream, GapEnd(s), GapEnd(s) + j)).(next := next);
            && s' == s.(gapCount := s'.gapCount, pendingGapBytes := s'.pendingGapBytes,
                        pendingGapSeq := s'.pendingGapSeq, droppedBytes := s'.droppedBytes, next := next)
            && FlightEnd(s') == FlightEnd(s)
            && GapEnd(s') == GapEnd(s) + j
            && Positions(s', |stream|) && Weighs(s', stream)
            && s'.droppedBytes - s.droppedBytes == s'.pendingGapBytes - s.pendingGapBytes
            && s'.gapCount - s.gapCount == One(s'.pendingGapBytes > 0) - One(s.pendingGapBytes > 0)
            && s.pendingGapBytes <= s'.pendingGapBytes
  {
    hide ItemBytes;
    hide AddGaps;
    var g := GapEnd(s);
    BytesPositive(stream, FlightEnd(s), g);
    AddGapsSlice(s, stream, g, g + j);
    BytesPositive(stream, g, g + j);
    SliceSplit(stream, FlightEnd(s), g, g + j);
  }

  /** The cursor after shedding j queued chunks. */
  lemma ShedNext(nodes: seq<Node>, k: nat, c: Consumer, s: ConsumerState, stream: seq<Payload>, j: nat)
    requires k <= |nodes|
    requires Positions(s, |stream|) && Cursor(s, |stream|) && GapEnd(s) + j <= |stream|
    requires ShedItems(nodes, k, c, s) == Slice(stream, GapEnd(s), GapEnd(s) + j)
    requires j > 0 ==> Items(nodes[k..], c) == Slice(stream, GapEnd(s) + j, |stream|)
    ensures ShedState(nodes, k, c, s).next ==
            if s.inFlight.Some? then s.next
            else if GapEnd(s) + j < |stream| then Some(GapEnd(s) + j + 1) else None
  {
    hide ItemBytes;
    hide Items;
    hide ShedItems;
    hide AddGaps;
    hide FirstPending;
    var gone := Slice(stream, GapEnd(s), GapEnd(s) + j);
    FirstPendingIsFirstItem(nodes[k..], c);
    if j > 0 {
      assert gone[0].seqNo == GapEnd(s) + 1;
      assert Mentions(gone, GapEnd(s) + 1);
    }
  }

  lemma ShedStateKeeps(items: seq<Item>, s: ConsumerState, s': ConsumerState, t: Track, j: nat)
    requires NonEmpty(t.stream)
    requires Positions(s, |t.stream|) && Weighs(s, t.stream) && Holding(s, t) && Counts(s, t.log)
    requires GapEnd(s) + j <= |t.stream|
    requires items == FlightItems(s, t.stream) + Slice(t.stream, GapEnd(s) + j, |t.stream|)
    requires s' == AddGaps(s, Slice(t.stream, GapEnd(s), GapEnd(s) + j)).(next := s'.next)
    requires s.inFlight.Some? ==> s'.next == s.next && Cursor(s, |t.stream|)
    requires s.inFlight.None? ==> s'.next == if GapEnd(s) + j < |t.stream| then Some(GapEnd(s) + j + 1) else None
    ensures Running(items, s', t)
    ensures s' == s.(gapCount := s'.gapCount, pendingGapBytes := s'.pendingGapBytes,
                     pendingGapSeq := s'.pendingGapSeq, droppedBytes := s'.droppedBytes, next := s'.next)
    ensures s.pendingGapBytes <= s'.pendingGapBytes
    ensures GapEnd(s') == GapEnd(s) + j
  {
    ShedCounters(s, t.stream, j, s'.next);
  }

  /** A consumer that sheds queued chunks keeps its invariant: they moved into the pending gap. */
  lemma ShedRunning(nodes: seq<Node>, k: nat, c: Consumer, s: ConsumerState, t: Track)
    returns (items: seq<Item>, s': ConsumerState)
    requires k <= |nodes| && NonEmpty(t.stream)
    requires Running(Items(nodes, c), s, t)
    ensures items == Items(ShedNodes(nodes, k, c, s), c) && s' == ShedState(nodes, k, c, s)
    ensures Running(items, s', t)
    ensures s' == s.(gapCount := s'.gapCount, pendingGapBytes := s'.pendingGapBytes,
                     pendingGapSeq := s'.pendingGapSeq, droppedBytes := s'.droppedBytes, next := s'.next)
    ensures s.pendingGapBytes <= s'.pendingGapBytes
    ensures k == |nodes| ==> GapEnd(s') == |t.stream|
  {
    items, s' := Items(ShedNodes(nodes, k, c, s), c), ShedState(nodes, k, c, s);
    var j := ShedSplit(nodes, k, c, s, t.stream);
    ShedNext(nodes, k, c, s, t.stream, j);
    ShedStateKeeps(items, s, s', t, j);
  }

  lemma ShedKeeps(nodes: seq<Node>, k: nat, c: Consumer, nextSeq: nat, closed: bool, s: ConsumerState, t: Track)
    requires k <= |nodes|
    requires ConsumerInv(Items(nodes, c), nextSeq, closed, s, t)
    ensures ConsumerInv(Items(ShedNodes(nodes, k, c, s), c), nextSeq, closed, ShedState(nodes, k, c, s), t)
  {
    if s.unavailable.Some? {
      assert nodes == nodes[..k] + nodes[k..];
      ItemsConcat(nodes[..k], nodes[k..], c);
      ShedGone(nodes, k, c, s);
      ShedOwn(nodes, k, c, s);
    } else {
      var items, s' := ShedRunning(nodes, k, c, s, t);
    }
  }

  // ------------------------------------------------------------------ accepting a chunk

  /** The stream grows behind everything a consumer has done so far. */
  lemma StreamGrows(s: ConsumerState, stream: seq<Payload>, p: Payload)
    requires s.active && Positions(s, |stream|) && Weighs(s, stream) && NonEmpty(stream) && p != []
    ensures Positions(s, |stream| + 1) && Weighs(s, stream + [p]) && NonEmpty(stream + [p])
    ensures FlightItems(s, stream + [p]) == FlightItems(s, stream)
    ensures Slice(stream + [p], GapEnd(s), |stream| + 1) == Slice(stream, GapEnd(s), |stream|) + [Item(|stream| + 1, p)]
  {
    var longer := stream + [p];
    SliceGrows(stream, p, s.completedSeq, FlightEnd(s));
    SliceGrows(stream, p, FlightEnd(s), GapEnd(s));
    SliceGrows(stream, p, GapEnd(s), |stream|);
    SliceSplit(longer, GapEnd(s), |stream|, |stream| + 1);
    assert Slice(longer, |stream|, |stream| + 1) == [Item(|stream| + 1, p)];
  }

  /** An active consumer without a gap gets the chunk at the end of its queue. */
  lemma AcceptQueued(items: seq<Item>, s: ConsumerState, t: Track, p: Payload)
    requires Running(items, s, t) && NonEmpty(t.stream) && p != []
    requires s.active && !Lossy(s)
    ensures Running(items + [Item(|t.stream| + 1, p)], Point(s, true, |t.stream| + 1), t.(stream := t.stream + [p]))
  {
    StreamGrows(s, t.stream, p);
  }

  lemma LostCounters(s: ConsumerState, s': ConsumerState, stream: seq<Payload>, p: Payload)
    requires s.active && Positions(s, |stream|) && Weighs(s, stream) && NonEmpty(stream) && p != []
    requires GapEnd(s) == |stream|
    requires s' == AddGap(s.(next := s'.next), |stream| + 1, |p|)
    ensures FlightEnd(s') == FlightEnd(s) && GapEnd(s') == |stream| + 1
    ensures Positions(s', |stream| + 1) && Weighs(s', stream + [p])
    ensures s'.droppedBytes - s.droppedBytes == s'.pendingGapBytes - s.pendingGapBytes
    ensures s'.gapCount - s.gapCount == 1 - One(s.pendingGapBytes > 0) && s'.pendingGapBytes > 0
  {
    hide ItemBytes;
    var n, longer := |stream|, stream + [p];
    StreamGrows(s, stream, p);
    SliceSplit(longer, FlightEnd(s), GapEnd(s), n + 1);
    LastBytes(stream, p);
    BytesPositive(stream, FlightEnd(s), GapEnd(s));
  }

  lemma LastBytes(stream: seq<Payload>, p: Payload)
    ensures Bytes(stream + [p], |stream|, |stream| + 1) == |p|
  {
    var last := Item(|stream| + 1, p);
    assert Slice(stream + [p], |stream|, |stream| + 1) == [last];
    assert ItemBytes([last]) == |p| + ItemBytes([]);
  }

  /** A consumer whose whole queue is gone takes the chunk into its pending gap. */
  lemma AcceptLost(items: seq<Item>, s: ConsumerState, t: Track, p: Payload, s': ConsumerState)
    requires Running(items, s, t) && NonEmpty(t.stream) && p != []
    requires s.active && GapEnd(s) == |t.stream|
    requires s' == AddGap(s.(next := s'.next), |t.stream| + 1, |p|) && (s'.next == None || s'.next == s.next)
    ensures Running(items, s', t.(stream := t.stream + [p]))
  {
    hide ItemBytes;
    hide Join;
    hide Reached;
    hide Gaps;
    hide SkippedBytes;
    LostCounters(s, s', t.stream, p);
    StreamGrows(s, t.stream, p);
    NoBytes(t.stream, |t.stream|);
    NoBytes(t.stream + [p], |t.stream| + 1);
  }

  // ------------------------------------------------------------------ handing out and completing

  ghost predicate Empty(s: ConsumerState) {
    s.inFlight.None? && s.gapInFlight.None?
  }

  /** A batch is the front of the queue, byte for byte. */
  lemma TakesBatch(items: seq<Item>, s: ConsumerState, t: Track, m: nat) returns (span: Span, held: Held)
    requires Running(items, s, t) && Empty(s) && s.pendingGapBytes == 0
    requires 1 <= m <= |items| && s.next.Some?
    ensures span == Span(s.next.value, items[m - 1].seqNo) && span.last == s.completedSeq + m
    ensures held == HoldsBatch(Batch(span, Join(items[..m])))
    ensures Running(items, s.(inFlight := Some(span)), t.(held := held))
  {
    hide Join;
    hide ItemBytes;
    hide Weighs;
    hide Counts;
    hide Reached;
    hide Gaps;
    hide SkippedBytes;
    var done, n := s.completedSeq, |t.stream|;
    span := Span(done + 1, done + m);
    var front := Slice(t.stream, done, done + m);
    held := HoldsBatch(Batch(span, Join(front)));
    assert items == Slice(t.stream, done, n);
    assert items[..m] == front;
    TakenBatch(items, s, t, span, held);
  }

  lemma TakenBatch(items: seq<Item>, s: ConsumerState, t: Track, span: Span, held: Held)
    requires Running(items, s, t) && Empty(s) && s.pendingGapBytes == 0
    requires span.first == s.completedSeq + 1 <= span.last <= |t.stream| && s.next == Some(span.first)
    requires held == HoldsBatch(Batch(span, Join(Slice(t.stream, s.completedSeq, span.last))))
    ensures Running(items, s.(inFlight := Some(span)), t.(held := held))
  {
    hide Join;
    hide ItemBytes;
    hide Reached;
    hide Gaps;
    hide SkippedBytes;
    SliceSplit(t.stream, s.completedSeq, span.last, |t.stream|);
    NoBytes(t.stream, span.last);
    NoBytes(t.stream, s.completedSeq);
  }

  lemma TakesGap(items: seq<Item>, s: ConsumerState, t: Track)
    requires Running(items, s, t) && Empty(s) && s.pendingGapBytes > 0 && NonEmpty(t.stream)
    ensures var gap := Gap(s.epoch + 1, s.pendingGapBytes, s.pendingGapSeq);
            Running(items, s.(pendingGapBytes := 0, pendingGapSeq := 0, gapInFlight := Some(gap)),
                    t.(held := HoldsGap(gap)))
  {
    BytesPositive(t.stream, FlightEnd(s), GapEnd(s));
    assert Slice(t.stream, GapEnd(s), GapEnd(s)) == [];
  }

  /** Only the batch leaves a consumer's view when the batch is acknowledged. */
  lemma AckedView(items: seq<Item>, s: ConsumerState, t: Track)
    requires Running(items, s, t) && s.inFlight.Some?
    ensures Gone(items, s) == Slice(t.stream, GapEnd(s), |t.stream|)
  {
    var flight, queue := FlightItems(s, t.stream), Slice(t.stream, GapEnd(s), |t.stream|);
    AllInFlight(flight, s);
    NoneInFlight(queue, s);
    KeptGoneConcat(flight, queue, s);
  }

  function FirstOf(items: seq<Item>): Option<nat> {
    if items == [] then None else Some(items[0].seqNo)
  }

  /** An ingested batch tiles on: the log now reaches the batch's last chunk. */
  lemma BatchDone(items: seq<Item>, s: ConsumerState, t: Track) returns (e: Event, queue: seq<Item>)
    requires Running(items, s, t) && s.inFlight.Some? && Tiles(t.log, t.stream)
    ensures t.held.HoldsBatch? && t.held.batch.span == s.inFlight.value
    ensures e == Ingested(t.held.batch.payload, s.inFlight.value.last) && queue == Gone(items, s)
    ensures Tiles(t.log + [e], t.stream)
    ensures Running(queue, s.(inFlight := None, completedSeq := s.inFlight.value.last, next := FirstOf(queue)),
                    t.(log := t.log + [e], held := Idle))
  {
    AckedView(items, s, t);
    e, queue := Ingested(t.held.batch.payload, s.inFlight.value.last), Gone(items, s);
    TilesExtend(t.log, t.stream, e);
    BatchLogged(s, t, t.log + [e], queue);
  }

  lemma BatchLogged(s: ConsumerState, t: Track, log: seq<Event>, queue: seq<Item>)
    requires Positions(s, |t.stream|) && Weighs(s, t.stream) && Counts(s, t.log) && s.inFlight.Some?
    requires queue == Slice(t.stream, GapEnd(s), |t.stream|)
    requires Reached(log) == s.inFlight.value.last && SkippedBytes(log) == SkippedBytes(t.log) && Gaps(log) == Gaps(t.log)
    ensures Running(queue, s.(inFlight := None, completedSeq := s.inFlight.value.last, next := FirstOf(queue)),
                    t.(log := log, held := Idle))
  {
    hide Join;
    hide ItemBytes;
    hide Reached;
    hide Gaps;
    hide SkippedBytes;
    var s' := s.(inFlight := None, completedSeq := s.inFlight.value.last, next := FirstOf(queue));
    assert FlightEnd(s') == FlightEnd(s) && GapEnd(s') == GapEnd(s);
    assert Cursor(s', |t.stream|);
    assert FlightItems(s', t.stream) + queue == queue;
  }

  lemma GapDone(items: seq<Item>, s: ConsumerState, t: Track)
    requires Running(items, s, t) && s.gapInFlight.Some? && Tiles(t.log, t.stream)
    ensures t.held == HoldsGap(s.gapInFlight.value)
    ensures Tiles(t.log + [Skipped(s.gapInFlight.value)], t.stream)
    ensures Running(items,
                    s.(gapInFlight := None, epoch := s.gapInFlight.value.epoch, completedSeq := s.gapInFlight.value.throughSeq),
                    t.(log := t.log + [Skipped(s.gapInFlight.value)], held := Idle))
  {
    TilesExtend(t.log, t.stream, Skipped(s.gapInFlight.value));
    GapLogged(items, s, t, t.log + [Skipped(s.gapInFlight.value)]);
  }

  lemma GapLogged(items: seq<Item>, s: ConsumerState, t: Track, log: seq<Event>)
    requires Running(items, s, t) && s.gapInFlight.Some?
    requires Reached(log) == s.gapInFlight.value.throughSeq && Gaps(log) == Gaps(t.log) + 1
    requires SkippedBytes(log) == SkippedBytes(t.log) + s.gapInFlight.value.droppedBytes
    ensures Running(items,
                    s.(gapInFlight := None, epoch := s.gapInFlight.value.epoch, completedSeq := s.gapInFlight.value.throughSeq),
                    t.(log := log, held := Idle))
  {
  }

  /** All bytes of a stream, part by part. */
  lemma PartsOf(items: seq<Item>, s: ConsumerState, t: Track)
    requires Running(items, s, t) && Tiles(t.log, t.stream)
    ensures Bytes(t.stream, 0, |t.stream|) == IngestedBytes(t.log) + SkippedBytes(t.log)
            + Bytes(t.stream, s.completedSeq, FlightEnd(s)) + s.pendingGapBytes
            + Bytes(t.stream, GapEnd(s), |t.stream|)
    ensures ItemBytes(items) == (if s.inFlight.Some? then Bytes(t.stream, s.completedSeq, FlightEnd(s)) else 0)
            + Bytes(t.stream, GapEnd(s), |t.stream|)
  {
    var n := |t.stream|;
    TiledBytes(t.log, t.stream);
    SliceSplit(t.stream, 0, s.completedSeq, n);
    SliceSplit(t.stream, s.completedSeq, FlightEnd(s), n);
    SliceSplit(t.stream, FlightEnd(s), GapEnd(s), n);
    BytesConcat(FlightItems(s, t.stream), Slice(t.stream, GapEnd(s), n));
  }

  /** A failed ingest reports every byte not ingested and not covered by a completed gap. */
  lemma BatchFails(items: seq<Item>, s: ConsumerState, t: Track)
    requires Running(items, s, t) && s.inFlight.Some? && Tiles(t.log, t.stream)
    ensures t.held.HoldsBatch?
    ensures var lost := |t.held.batch.payload| + s.pendingGapBytes + ItemBytes(Gone(items, s));
            && lost == Bytes(t.stream, 0, |t.stream|) - IngestedBytes(t.log) - SkippedBytes(t.log)
            && s.droppedBytes + |t.held.batch.payload| + ItemBytes(Gone(items, s))
               == Bytes(t.stream, 0, |t.stream|) - IngestedBytes(t.log)
  {
    PartsOf(items, s, t);
    AckedView(items, s, t);
    JoinLength(FlightItems(s, t.stream));
  }

  lemma GapFails(items: seq<Item>, s: ConsumerState, t: Track)
    requires Running(items, s, t) && s.gapInFlight.Some? && Tiles(t.log, t.stream)
    ensures var lost := s.gapInFlight.value.droppedBytes + s.pendingGapBytes + ItemBytes(items);
            && lost == Bytes(t.stream, 0, |t.stream|) - IngestedBytes(t.log) - SkippedBytes(t.log)
            && s.droppedBytes + ItemBytes(items) == Bytes(t.stream, 0, |t.stream|) - IngestedBytes(t.log)
  {
    PartsOf(items, s, t);
  }

  /** Closing: nothing queued is left, and the pending gap ends the stream. */
  lemma CloseDone(items: seq<Item>, s: ConsumerState, t: Track)
    requires Running(items, s, t) && GapEnd(s) == |t.stream|
    ensures Running(items, s.(next := None, active := false), t)
  {
    assert Slice(t.stream, GapEnd(s), |t.stream|) == [];
  }
}
