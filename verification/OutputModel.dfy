/**
 The shared terminal output buffer as a value: one list of PTY chunks, two independent
 consumers, pending marks per node, batches in flight and ordered loss gaps.

 Every function of this module is one critical section of the buffer, written as a
 function of the state before it. `OutputClass` runs the same sections with loops over a
 mutable object, and `OutputProofs` proves what every interleaving of them keeps.
 */
module OutputModel {

  newtype Byte = x: int | 0 <= x < 256

  type Payload = seq<Byte>

  datatype Option<+T> = None | Some(value: T)

  /** Most bytes one chunk or one batch of several chunks may carry. */
  const CHUNK_BYTES: nat := 16384

  datatype Consumer = Live | History

  function Other(c: Consumer): Consumer {
    if c == Live then History else Live
  }

  datatype Policy = Drop | Block

  /** A loss event handed to a consumer: the bytes lost, and the last chunk it covers. */
  datatype Gap = Gap(epoch: nat, droppedBytes: nat, throughSeq: nat)

  /** A listed chunk. `pending` holds the consumers that have not finished with it. */
  datatype Node = Node(seqNo: nat, payload: Payload, pending: set<Consumer>)

  /** The first and the last node of a batch handed out and not completed yet. */
  datatype Span = Span(first: nat, last: nat)

  datatype Batch = Batch(span: Span, payload: Payload)

  datatype OutputError = OutputError(epoch: nat, droppedBytes: nat)

  /** Cursors name nodes by sequence number, which no two nodes share. */
  datatype ConsumerState = ConsumerState(
    active: bool,
    started: bool,
    next: Option<nat>,
    inFlight: Option<Span>,
    gapInFlight: Option<Gap>,
    completedSeq: nat,
    pendingGapBytes: nat,
    pendingGapSeq: nat,
    epoch: nat,
    droppedBytes: nat,
    gapCount: nat,
    unavailable: Option<OutputError>,
    failurePending: bool)

  datatype Buffer = Buffer(
    capacity: nat,
    policy: Policy,
    nodes: seq<Node>,
    resident: int,
    nextSeq: nat,
    closed: bool,
    sealed: bool,
    live: ConsumerState,
    history: ConsumerState)
  {
    function State(c: Consumer): ConsumerState {
      if c == Live then live else history
    }

    function With(c: Consumer, s: ConsumerState): Buffer {
      if c == Live then this.(live := s) else this.(history := s)
    }

    predicate HasActive() {
      live.active || history.active
    }

    predicate Accepting() {
      !closed && !sealed && HasActive()
    }
  }

  function FreshConsumer(active: bool): ConsumerState {
    ConsumerState(active, false, None, None, None, 0, 0, 0, 0, 0, 0, None, false)
  }

  function NewBuffer(capacity: nat, policy: Policy, historyEnabled: bool): Buffer {
    Buffer(capacity, policy, [], 0, 0, false, false, FreshConsumer(true), FreshConsumer(historyEnabled))
  }

  // ------------------------------------------------------------------ list queries

  /** A chunk as one consumer sees it. */
  datatype Item = Item(seqNo: nat, payload: Payload)

  /** What consumer c still has to finish, in list order. */
  function Items(nodes: seq<Node>, c: Consumer): seq<Item> {
    if nodes == [] then [] else Mine(nodes[0], c) + Items(nodes[1..], c)
  }

  function Mine(n: Node, c: Consumer): seq<Item> {
    if c in n.pending then [Item(n.seqNo, n.payload)] else []
  }

  function ItemBytes(items: seq<Item>): nat {
    if items == [] then 0 else |items[0].payload| + ItemBytes(items[1..])
  }

  function Join(items: seq<Item>): Payload {
    if items == [] then [] else items[0].payload + Join(items[1..])
  }

  function NodeBytes(nodes: seq<Node>): nat {
    if nodes == [] then 0 else |nodes[0].payload| + NodeBytes(nodes[1..])
  }

  /** The first node still pending for c: nextPendingNodeLocked. */
  function FirstPending(nodes: seq<Node>, c: Consumer): Option<nat> {
    if nodes == [] then None
    else if c in nodes[0].pending then Some(nodes[0].seqNo)
    else FirstPending(nodes[1..], c)
  }

  /** The nodes listed after the one numbered k. */
  function After(nodes: seq<Node>, k: nat): seq<Node> {
    if nodes == [] then []
    else if nodes[0].seqNo > k then nodes
    else After(nodes[1..], k)
  }

  predicate InFlight(s: ConsumerState, seqNo: nat) {
    s.inFlight.Some? && s.inFlight.value.first <= seqNo <= s.inFlight.value.last
  }

  // ------------------------------------------------------------------ list edits

  function Reclaim(nodes: seq<Node>): seq<Node> {
    if nodes == [] then []
    else (if nodes[0].pending != {} then [nodes[0]] else []) + Reclaim(nodes[1..])
  }

  /** Takes c's mark off the first k nodes, except off those c has in flight. */
  function ShedNodes(nodes: seq<Node>, k: nat, c: Consumer, s: ConsumerState): (r: seq<Node>)
    ensures |r| == |nodes|
    ensures forall i :: 0 <= i < |nodes| ==> r[i] == if i < k then ShedNode(nodes[i], c, s) else nodes[i]
  {
    seq(|nodes|, i requires 0 <= i < |nodes| => if i < k then ShedNode(nodes[i], c, s) else nodes[i])
  }

  function ShedNode(n: Node, c: Consumer, s: ConsumerState): Node {
    if InFlight(s, n.seqNo) then n else n.(pending := n.pending - {c})
  }

  /** The chunks that `ShedNodes` takes away from c. */
  function ShedItems(nodes: seq<Node>, k: nat, c: Consumer, s: ConsumerState): seq<Item> {
    if nodes == [] || k == 0 then []
    else (if InFlight(s, nodes[0].seqNo) then [] else Mine(nodes[0], c)) + ShedItems(nodes[1..], k - 1, c, s)
  }

  /** Takes c's mark off every node of a batch. */
  function AckNodes(nodes: seq<Node>, c: Consumer, span: Span): (r: seq<Node>)
    ensures |r| == |nodes|
    ensures forall i :: 0 <= i < |nodes| ==> r[i] == AckNode(nodes[i], c, span)
  {
    seq(|nodes|, i requires 0 <= i < |nodes| => AckNode(nodes[i], c, span))
  }

  function AckNode(n: Node, c: Consumer, span: Span): Node {
    if span.first <= n.seqNo <= span.last then n.(pending := n.pending - {c}) else n
  }

  /** Takes c's mark off every node: releaseConsumerLocked from c's cursor on. */
  function ReleaseNodes(nodes: seq<Node>, c: Consumer): (r: seq<Node>)
    ensures |r| == |nodes|
    ensures forall i :: 0 <= i < |nodes| ==> r[i] == nodes[i].(pending := nodes[i].pending - {c})
  {
    seq(|nodes|, i requires 0 <= i < |nodes| => nodes[i].(pending := nodes[i].pending - {c}))
  }

  /** addGapLocked */
  function AddGap(s: ConsumerState, throughSeq: nat, bytes: nat): ConsumerState {
    if bytes == 0 then s
    else s.(gapCount := if s.pendingGapBytes == 0 then s.gapCount + 1 else s.gapCount,
            pendingGapBytes := s.pendingGapBytes + bytes,
            pendingGapSeq := if throughSeq > s.pendingGapSeq then throughSeq else s.pendingGapSeq,
            droppedBytes := s.droppedBytes + bytes)
  }

  function AddGaps(s: ConsumerState, items: seq<Item>): ConsumerState
    decreases |items|
  {
    if items == [] then s
    else AddGaps(AddGap(s, items[0].seqNo, |items[0].payload|), items[1..])
  }

  predicate Mentions(items: seq<Item>, seqNo: nat) {
    exists i :: 0 <= i < |items| && items[i].seqNo == seqNo
  }

  /** c's state after its queued chunks among the first k nodes became a gap. */
  function ShedState(nodes: seq<Node>, k: nat, c: Consumer, s: ConsumerState): ConsumerState
    requires k <= |nodes|
  {
    var gone := ShedItems(nodes, k, c, s);
    AddGaps(s, gone).(next := if s.next.Some? && Mentions(gone, s.next.value)
                              then FirstPending(nodes[k..], c) else s.next)
  }

  function Shed(b: Buffer, k: nat, c: Consumer): Buffer
    requires k <= |b.nodes|
  {
    b.(nodes := ShedNodes(b.nodes, k, c, b.State(c))).With(c, ShedState(b.nodes, k, c, b.State(c)))
  }

  /** reclaimLocked with its effect on the resident count. */
  function Swept(b: Buffer): Buffer {
    b.(nodes := Reclaim(b.nodes), resident := b.resident - (NodeBytes(b.nodes) - NodeBytes(Reclaim(b.nodes))))
  }

  // ------------------------------------------------------------------ critical sections

  /** How many nodes dropOldestLocked visits to free `required` bytes. */
  function DropCount(nodes: seq<Node>, live: ConsumerState, history: ConsumerState, required: int): (k: nat)
    ensures k <= |nodes|
  {
    if nodes == [] || required <= 0 then 0
    else 1 + DropCount(nodes[1..], live, history,
                       if Drained(nodes[0], live, history) then required - |nodes[0].payload| else required)
  }

  /** No consumer keeps this node once its queued marks are gone. */
  predicate Drained(n: Node, live: ConsumerState, history: ConsumerState) {
    && (Live in n.pending ==> !InFlight(live, n.seqNo))
    && (History in n.pending ==> !InFlight(history, n.seqNo))
  }

  /** dropOldestLocked */
  function DropOldest(b: Buffer, required: int): Buffer {
    var k := DropCount(b.nodes, b.live, b.history, required);
    var one := Shed(b, k, Live);
    Swept(Shed(one, k, History))
  }

  /** The incoming chunk and everything c has queued become one gap. */
  function RefuseFor(b: Buffer, c: Consumer, seqNo: nat, bytes: nat): Buffer {
    if !b.State(c).active then b
    else
      var shed := Shed(b, |b.nodes|, c);
      shed.With(c, AddGap(shed.State(c).(next := None), seqNo, bytes))
  }

  /** dropIncomingLocked */
  function DropIncoming(b: Buffer, bytes: nat): Buffer {
    var b0 := b.(nextSeq := b.nextSeq + 1);
    Swept(RefuseFor(RefuseFor(b0, Live, b0.nextSeq, bytes), History, b0.nextSeq, bytes))
  }

  predicate Lossy(s: ConsumerState) {
    s.pendingGapBytes > 0 || s.gapInFlight.Some?
  }

  /** A consumer that already owes a gap takes the new chunk into a gap too. */
  function AppendLossy(b: Buffer, c: Consumer, seqNo: nat, bytes: nat): Buffer {
    var s := b.State(c);
    if !s.active || !Lossy(s) then b
    else
      var shed := Shed(b, |b.nodes|, c);
      var t := shed.State(c);
      shed.With(c, AddGap(if s.inFlight.None? then t.(next := None) else t, seqNo, bytes))
  }

  function Mask(b: Buffer): set<Consumer> {
    (if b.live.active && !Lossy(b.live) then {Live} else {})
    + (if b.history.active && !Lossy(b.history) then {History} else {})
  }

  function Point(s: ConsumerState, wanted: bool, seqNo: nat): ConsumerState {
    if wanted && s.next.None? && s.inFlight.None? then s.(next := Some(seqNo)) else s
  }

  /** The second half of writeChunk: number the chunk, and list it for every consumer without a gap. */
  function Append(b: Buffer, payload: Payload): Buffer {
    var seqNo := b.nextSeq + 1;
    var mask := Mask(b);
    var b0 := b.(nextSeq := seqNo);
    var b1 := Swept(AppendLossy(AppendLossy(b0, Live, seqNo, |payload|), History, seqNo, |payload|));
    if mask == {} then b1
    else b1.(nodes := b1.nodes + [Node(seqNo, payload, mask)],
             resident := b1.resident + |payload|,
             live := Point(b1.live, Live in mask, seqNo),
             history := Point(b1.history, History in mask, seqNo))
  }

  /** How many of the queued chunks the next batch takes, given the bytes it holds already. */
  function BatchMore(items: seq<Item>, total: nat): (m: nat)
    ensures m <= |items|
  {
    if items == [] || total + |items[0].payload| > CHUNK_BYTES then 0
    else 1 + BatchMore(items[1..], total + |items[0].payload|)
  }

  function BatchCount(items: seq<Item>): (m: nat)
    requires items != []
    ensures 1 <= m <= |items|
  {
    1 + BatchMore(items[1..], |items[0].payload|)
  }

  datatype Fetched = Wait | Stop | TakeBatch(batch: Batch) | TakeGap(gap: Gap)

  /** What next() hands out. `Wait` is the condition under which it keeps waiting. */
  function Fetch(b: Buffer, c: Consumer): Fetched {
    var s := b.State(c);
    if s.active && s.pendingGapBytes == 0 && s.next.None? && !b.sealed && !b.closed then Wait
    else if !s.active || b.closed then Stop
    else if s.pendingGapBytes > 0 then TakeGap(Gap(s.epoch + 1, s.pendingGapBytes, s.pendingGapSeq))
    else if s.next.None? then Stop
    else
      var queue := Items(b.nodes, c);
      if queue == [] then Stop
      else
        var m := BatchCount(queue);
        TakeBatch(Batch(Span(s.next.value, queue[m - 1].seqNo), Join(queue[..m])))
  }

  function FetchState(b: Buffer, c: Consumer): Buffer {
    var s := b.State(c);
    match Fetch(b, c)
    case TakeBatch(batch) => b.With(c, s.(inFlight := Some(batch.span)))
    case TakeGap(gap) => b.With(c, s.(pendingGapBytes := 0, pendingGapSeq := 0, gapInFlight := Some(gap)))
    case _ => b
  }

  function Max(x: nat, y: nat): nat { if x > y then x else y }

  /** A consumer whose ingest failed: everything it still had, and everything after, is lost to it. */
  function BatchFailure(b: Buffer, c: Consumer, batch: Batch, failurePending: bool): ConsumerState {
    var s := b.State(c);
    var released := ItemBytes(Items(AckNodes(b.nodes, c, batch.span), c));
    s.(inFlight := None, completedSeq := Max(s.completedSeq, batch.span.last),
       gapCount := if s.pendingGapBytes == 0 then s.gapCount + 1 else s.gapCount,
       pendingGapBytes := 0, pendingGapSeq := 0,
       droppedBytes := s.droppedBytes + |batch.payload| + released,
       unavailable := Some(OutputError(s.epoch + 1, |batch.payload| + s.pendingGapBytes + released)),
       failurePending := failurePending, active := false, next := None)
  }

  /** completeBatch; `failed` is a non-nil ingest error. */
  function CompleteBatch(b: Buffer, c: Consumer, batch: Batch, failed: bool, failurePending: bool): Buffer {
    var s := b.State(c);
    if s.inFlight != Some(batch.span) then b
    else
      var acked := AckNodes(b.nodes, c, batch.span);
      if failed then
        Swept(b.(nodes := ReleaseNodes(acked, c)).With(c, BatchFailure(b, c, batch, failurePending)))
      else
        Swept(b.(nodes := acked).With(c,
                s.(inFlight := None, completedSeq := Max(s.completedSeq, batch.span.last),
                   next := FirstPending(After(acked, batch.span.last), c))))
  }

  /** A consumer whose gap handler failed. */
  function GapFailure(b: Buffer, c: Consumer, gap: Gap, failurePending: bool): ConsumerState {
    var s := b.State(c);
    var released := ItemBytes(Items(b.nodes, c));
    s.(gapInFlight := None, pendingGapBytes := 0, pendingGapSeq := 0,
       droppedBytes := s.droppedBytes + released,
       unavailable := Some(OutputError(gap.epoch, gap.droppedBytes + s.pendingGapBytes + released)),
       failurePending := failurePending, active := false, next := None)
  }

  /** completeGap; `failed` is a non-nil gap-handler error. */
  function CompleteGap(b: Buffer, c: Consumer, gap: Gap, failed: bool, failurePending: bool): Buffer {
    var s := b.State(c);
    if s.gapInFlight != Some(gap) then b
    else if failed then
      Swept(b.(nodes := ReleaseNodes(b.nodes, c)).With(c, GapFailure(b, c, gap, failurePending)))
    else
      Swept(b.With(c, s.(gapInFlight := None, epoch := gap.epoch,
                         completedSeq := Max(s.completedSeq, gap.throughSeq))))
  }

  function CloseFor(b: Buffer, c: Consumer): Buffer {
    if !b.State(c).active then b
    else
      var shed := Shed(b, |b.nodes|, c);
      shed.With(c, shed.State(c).(next := None, active := false))
  }

  function Close(b: Buffer): Buffer {
    if b.closed then b
    else Swept(CloseFor(CloseFor(b.(closed := true), Live), History))
  }
}
