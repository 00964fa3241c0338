/**
 What every section gives back to the shared budget, computed as the section computes it: the
 payloads its reclaim pass unlinks, and the reservation of a chunk that is not listed.
 */
module OutputReleases {
  import opened OutputModel
  import opened OutputLemmas
  import opened OutputProofs
  import opened OutputRuns

  /** What reclaimLocked adds up while it unlinks. */
  function SweptBytes(nodes: seq<Node>): nat {
    if nodes == [] then 0
    else (if nodes[0].pending == {} then |nodes[0].payload| else 0) + SweptBytes(nodes[1..])
  }

  /** The list of each section as its reclaim pass finds it. */
  function DropOldestList(b: Buffer, required: int): seq<Node> {
    var k := DropCount(b.nodes, b.live, b.history, required);
    Shed(Shed(b, k, Live), k, History).nodes
  }

  function DropIncomingList(b: Buffer, bytes: nat): seq<Node> {
    var b0 := b.(nextSeq := b.nextSeq + 1);
    RefuseFor(RefuseFor(b0, Live, b0.nextSeq, bytes), History, b0.nextSeq, bytes).nodes
  }

  function AppendedList(b: Buffer, bytes: nat): seq<Node> {
    var b0 := b.(nextSeq := b.nextSeq + 1);
    AppendLossy(AppendLossy(b0, Live, b0.nextSeq, bytes), History, b0.nextSeq, bytes).nodes
  }

  function CloseList(b: Buffer): seq<Node> {
    CloseFor(CloseFor(b.(closed := true), Live), History).nodes
  }

  /** What writeChunk releases after its append section: the reservation too when nobody wants the chunk. */
  function AppendReleases(b: Buffer, p: Payload): nat {
    if Mask(b) == {} then |p| + SweptBytes(AppendedList(b, |p|)) else SweptBytes(AppendedList(b, |p|))
  }

  function BatchReleases(b: Buffer, c: Consumer, batch: Batch, failed: bool): nat {
    if b.State(c).inFlight != Some(batch.span) then 0
    else
      var acked := AckNodes(b.nodes, c, batch.span);
      SweptBytes(if failed then ReleaseNodes(acked, c) else acked)
  }

  function GapReleases(b: Buffer, c: Consumer, gap: Gap, failed: bool): nat {
    if b.State(c).gapInFlight != Some(gap) then 0
    else SweptBytes(if failed then ReleaseNodes(b.nodes, c) else b.nodes)
  }

  /** What a step's section hands to release. */
  function Released(w: World, a: Action): nat {
    match a
    case Squeeze(p) =>
      if w.writer.None? && p != [] && w.b.Accepting() && w.b.resident + |p| > w.b.capacity && w.b.policy == Drop then
        var freed := SweptBytes(DropOldestList(w.b, |p|));
        if freed > 0 then freed else SweptBytes(DropIncomingList(DropOldest(w.b, |p|), |p|))
      else 0
    case Commit =>
      if w.writer.None? then 0
      else if w.b.closed || w.b.sealed then |w.writer.value|
      else AppendReleases(w.b, w.writer.value)
    case Abandon =>
      if w.writer.None? || w.b.closed || w.b.sealed || w.b.policy == Block then 0
      else SweptBytes(DropIncomingList(w.b, |w.writer.value|))
    case Evict(required) => if w.b.policy == Drop then SweptBytes(DropOldestList(w.b, required)) else 0
    case FinishBatch(c, failed, _) =>
      if w.T(c).held.HoldsBatch? then BatchReleases(w.b, c, w.T(c).held.batch, failed) else 0
    case FinishGap(c, failed, _) =>
      if w.T(c).held.HoldsGap? then GapReleases(w.b, c, w.T(c).held.gap, failed) else 0
    case CloseAll => if w.b.closed then 0 else SweptBytes(CloseList(w.b))
    case _ => 0
  }

  // ------------------------------------------------------------------ the amounts are right

  lemma {:induction false} SweptIsFreed(nodes: seq<Node>)
    ensures NodeBytes(nodes) - NodeBytes(Reclaim(nodes)) == SweptBytes(nodes)
  {
    if nodes != [] {
      SweptIsFreed(nodes[1..]);
      if nodes[0].pending != {} {
        assert Reclaim(nodes)[1..] == Reclaim(nodes[1..]);
      } else {
        assert Reclaim(nodes) == Reclaim(nodes[1..]);
      }
    }
  }

  lemma SweptReleases(b: Buffer)
    ensures Swept(b).resident == b.resident - SweptBytes(b.nodes)
  {
    SweptIsFreed(b.nodes);
  }

  lemma DropOldestReleases(b: Buffer, required: int)
    ensures DropOldest(b, required).resident == b.resident - SweptBytes(DropOldestList(b, required))
  {
    hide DropCount;
    hide ShedNodes;
    hide ShedState;
    hide SweptBytes;
    hide Swept;
    var k := DropCount(b.nodes, b.live, b.history, required);
    SweptReleases(Shed(Shed(b, k, Live), k, History));
  }

  lemma DropIncomingReleases(b: Buffer, bytes: nat)
    ensures DropIncoming(b, bytes).resident == b.resident - SweptBytes(DropIncomingList(b, bytes))
  {
    hide ShedNodes;
    hide ShedState;
    hide SweptBytes;
    hide Swept;
    var b0 := b.(nextSeq := b.nextSeq + 1);
    SweptReleases(RefuseFor(RefuseFor(b0, Live, b0.nextSeq, bytes), History, b0.nextSeq, bytes));
  }

  lemma AppendResident(b: Buffer, p: Payload)
    ensures Append(b, p).resident + AppendReleases(b, p) == b.resident + |p|
  {
    hide ShedNodes;
    hide ShedState;
    hide SweptBytes;
    hide Swept;
    var b0 := b.(nextSeq := b.nextSeq + 1);
    SweptReleases(AppendLossy(AppendLossy(b0, Live, b0.nextSeq, |p|), History, b0.nextSeq, |p|));
  }

  lemma CloseReleases(b: Buffer)
    ensures !b.closed ==> Close(b).resident == b.resident - SweptBytes(CloseList(b))
  {
    hide ShedNodes;
    hide ShedState;
    hide SweptBytes;
    hide Swept;
    SweptReleases(CloseFor(CloseFor(b.(closed := true), Live), History));
  }

  lemma BatchResident(b: Buffer, c: Consumer, batch: Batch, failed: bool, failurePending: bool)
    ensures CompleteBatch(b, c, batch, failed, failurePending).resident == b.resident - BatchReleases(b, c, batch, failed)
  {
    hide AckNodes;
    hide ReleaseNodes;
    hide Items;
    hide ItemBytes;
    hide Swept;
    hide SweptBytes;
    hide FirstPending;
    hide After;
    var acked := AckNodes(b.nodes, c, batch.span);
    var s := b.State(c);
    SweptReleases(b.(nodes := ReleaseNodes(acked, c)).With(c, BatchFailure(b, c, batch, failurePending)));
    SweptReleases(b.(nodes := acked).With(c,
      s.(inFlight := None, completedSeq := Max(s.completedSeq, batch.span.last),
         next := FirstPending(After(acked, batch.span.last), c))));
  }

  lemma GapResident(b: Buffer, c: Consumer, gap: Gap, failed: bool, failurePending: bool)
    ensures CompleteGap(b, c, gap, failed, failurePending).resident == b.resident - GapReleases(b, c, gap, failed)
  {
    hide ReleaseNodes;
    hide Items;
    hide ItemBytes;
    hide Swept;
    hide SweptBytes;
    var s := b.State(c);
    SweptReleases(b.(nodes := ReleaseNodes(b.nodes, c)).With(c, GapFailure(b, c, gap, failurePending)));
    SweptReleases(b.With(c, s.(gapInFlight := None, epoch := gap.epoch,
                               completedSeq := Max(s.completedSeq, gap.throughSeq))));
  }

  lemma FetchResident(b: Buffer, c: Consumer)
    ensures FetchState(b, c).resident == b.resident
  {
    hide Items;
    hide BatchCount;
    hide Join;
  }

  /** The bytes a committing writer brings in. */
  function Brought(w: World, a: Action): nat {
    if a.Commit? && w.writer.Some? then |w.writer.value| else 0
  }

  /** What a section releases is exactly what its buffer no longer lists of what it had and was brought. */
  lemma ReleasedIsExact(w: World, a: Action)
    ensures Released(w, a) == w.b.resident + Brought(w, a) - Step(w, a).b.resident
  {
    hide SweptBytes;
    hide DropOldest;
    hide DropOldestList;
    hide DropIncoming;
    hide DropIncomingList;
    hide Append;
    hide AppendReleases;
    hide Close;
    hide CloseList;
    hide CompleteBatch;
    hide BatchReleases;
    hide CompleteGap;
    hide GapReleases;
    hide Fetch;
    hide FetchState;
    match a
    case Squeeze(p) =>
      DropOldestReleases(w.b, |p|);
      DropIncomingReleases(DropOldest(w.b, |p|), |p|);
    case Commit => if w.writer.Some? { AppendResident(w.b, w.writer.value); }
    case Abandon => if w.writer.Some? { DropIncomingReleases(w.b, |w.writer.value|); }
    case Evict(required) => DropOldestReleases(w.b, required);
    case Take(c) => FetchResident(w.b, c);
    case FinishBatch(c, failed, failurePending) =>
      if w.T(c).held.HoldsBatch? { BatchResident(w.b, c, w.T(c).held.batch, failed, failurePending); }
    case FinishGap(c, failed, failurePending) =>
      if w.T(c).held.HoldsGap? { GapResident(w.b, c, w.T(c).held.gap, failed, failurePending); }
    case CloseAll =>
      CloseReleases(w.b);
      ClosedStays(w.b);
    case _ =>
  }

  lemma ClosedStays(b: Buffer)
    ensures b.closed ==> Close(b) == b
  {
  }
}
