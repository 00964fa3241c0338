/** Every run of the output buffer: the steps, the invariant, and what follows from it. */
module OutputRuns {
  import opened OutputModel
  import opened OutputLemmas
  import opened OutputProofs

  // ------------------------------------------------------------------ steps

  /** One critical section. A disabled action leaves the world as it is. */
  datatype Action =
    | Admit(payload: Payload)
    | Squeeze(payload: Payload)
    | Commit
    | Abandon
    | Evict(required: int)
    | Begin(c: Consumer)
    | Take(c: Consumer)
    | FinishBatch(c: Consumer, failed: bool, failurePending: bool)
    | FinishGap(c: Consumer, failed: bool, failurePending: bool)
    | FailureHandled(c: Consumer)
    | Seal
    | CloseAll

  function Initial(capacity: nat, policy: Policy, historyEnabled: bool): World {
    World(NewBuffer(capacity, policy, historyEnabled), None, [], Track([], [], Idle), Track([], [], Idle))
  }

  /** A chunk becomes part of the stream of every consumer active when it is numbered. */
  function Accepted(t: Track, active: bool, p: Payload): Track {
    if active then t.(stream := t.stream + [p]) else t
  }

  function Numbered(w: World, b: Buffer, p: Payload): World {
    World(b, None, w.written + [p], Accepted(w.live, w.b.live.active, p), Accepted(w.history, w.b.history.active, p))
  }

  function Refused(w: World, p: Payload): World {
    Numbered(w, DropIncoming(w.b, |p|), p)
  }

  function Step(w: World, a: Action): World {
    match a
    case Admit(p) =>
      if w.writer.None? && p != [] && w.b.Accepting() && w.b.resident + |p| <= w.b.capacity
      then w.(writer := Some(p)) else w
    case Squeeze(p) =>
      if w.writer.None? && p != [] && w.b.Accepting() && w.b.resident + |p| > w.b.capacity && w.b.policy == Drop
      then
        var d := DropOldest(w.b, |p|);
        if d.resident < w.b.resident then w.(b := d) else Refused(w.(b := d), p)
      else w
    case Commit =>
      if w.writer.None? then w
      else if w.b.closed || w.b.sealed then w.(writer := None)
      else Numbered(w, Append(w.b, w.writer.value), w.writer.value)
    case Abandon =>
      if w.writer.None? then w
      else if w.b.closed || w.b.sealed || w.b.policy == Block then w.(writer := None)
      else Refused(w, w.writer.value)
    case Evict(required) =>
      if w.b.policy == Drop then w.(b := DropOldest(w.b, required)) else w
    case Begin(c) =>
      if w.b.State(c).active && !w.b.closed then w.(b := w.b.With(c, w.b.State(c).(started := true))) else w
    case Take(c) =>
      if w.T(c).held.Idle? && w.b.State(c).started then
        match Fetch(w.b, c)
        case TakeBatch(batch) => w.(b := FetchState(w.b, c)).With(c, w.T(c).(held := HoldsBatch(batch)))
        case TakeGap(gap) => w.(b := FetchState(w.b, c)).With(c, w.T(c).(held := HoldsGap(gap)))
        case _ => w
      else w
    case FinishBatch(c, failed, failurePending) =>
      if w.T(c).held.HoldsBatch? then
        var batch := w.T(c).held.batch;
        w.(b := CompleteBatch(w.b, c, batch, failed, failurePending)).With(c,
          w.T(c).(held := Idle,
                  log := if failed then w.T(c).log else w.T(c).log + [Ingested(batch.payload, batch.span.last)]))
      else w
    case FinishGap(c, failed, failurePending) =>
      if w.T(c).held.HoldsGap? then
        var gap := w.T(c).held.gap;
        w.(b := CompleteGap(w.b, c, gap, failed, failurePending)).With(c,
          w.T(c).(held := Idle, log := if failed then w.T(c).log else w.T(c).log + [Skipped(gap)]))
      else w
    case FailureHandled(c) => w.(b := w.b.With(c, w.b.State(c).(failurePending := false)))
    case Seal => w.(b := w.b.(sealed := true))
    case CloseAll => w.(b := Close(w.b))
  }

  function Run(w: World, actions: seq<Action>): World
    decreases |actions|
  {
    if actions == [] then w else Run(Step(w, actions[0]), actions[1..])
  }

  // ------------------------------------------------------------------ list accounting

  /** The accounting of a list whose finished nodes are not swept yet. */
  ghost predicate Loose(b: Buffer) {
    Shape(b.nodes, b.nextSeq) && b.resident == NodeBytes(b.nodes) && b.resident <= b.capacity
  }

  ghost predicate Good(b: Buffer, nextSeq: nat, c: Consumer, t: Track) {
    ConsumerInv(Items(b.nodes, c), nextSeq, b.closed, b.State(c), t)
  }

  /** What one edit leaves alone. */
  ghost predicate Frame(b: Buffer, b': Buffer) {
    && b'.capacity == b.capacity && b'.policy == b.policy && b'.nextSeq == b.nextSeq
    && b'.closed == b.closed && b'.sealed == b.sealed
  }

  lemma SweptKeeps(b: Buffer)
    requires Loose(b)
    ensures BufferInv(Swept(b)) && Frame(b, Swept(b)) && Swept(b).resident <= b.resident
    ensures Swept(b).live == b.live && Swept(b).history == b.history
    ensures forall c :: Items(Swept(b).nodes, c) == Items(b.nodes, c)
  {
    ReclaimShape(b.nodes, b.nextSeq);
    ReclaimSubset(b.nodes);
    ReclaimBytes(b.nodes);
    forall c ensures Items(Swept(b).nodes, c) == Items(b.nodes, c) {
      ReclaimItems(b.nodes, c);
    }
    forall i | 0 <= i < |Swept(b).nodes| ensures Swept(b).nodes[i].pending != {} {
      assert Swept(b).nodes[i] in Reclaim(b.nodes);
    }
  }

  lemma ChunksKeep(b: Buffer, nodes: seq<Node>)
    requires Loose(b) && SameChunks(nodes, b.nodes)
    ensures Loose(b.(nodes := nodes))
  {
    SameChunksBytes(nodes, b.nodes);
  }

  lemma ShedFrame(b: Buffer, k: nat, c: Consumer)
    requires k <= |b.nodes|
    ensures var b' := Shed(b, k, c);
            && Frame(b, b') && b'.resident == b.resident && |b'.nodes| == |b.nodes|
            && b'.State(Other(c)) == b.State(Other(c))
            && b'.State(c) == ShedState(b.nodes, k, c, b.State(c))
            && SameChunks(b'.nodes, b.nodes)
            && Items(b'.nodes, Other(c)) == Items(b.nodes, Other(c))
            && (Loose(b) ==> Loose(b'))
  {
    ShedOther(b.nodes, k, c, b.State(c));
    if Loose(b) { ChunksKeep(b, Shed(b, k, c).nodes); }
  }

  lemma ShedGood(b: Buffer, k: nat, c: Consumer, nextSeq: nat, t: Track, u: Track)
    requires k <= |b.nodes|
    requires Good(b, nextSeq, c, t) && Good(b, nextSeq, Other(c), u)
    ensures Good(Shed(b, k, c), nextSeq, c, t) && Good(Shed(b, k, c), nextSeq, Other(c), u)
  {
    ShedFrame(b, k, c);
    ShedKeeps(b.nodes, k, c, nextSeq, b.closed, b.State(c), t);
  }

  // ------------------------------------------------------------------ each section keeps the invariant

  lemma DropOldestKeeps(w: World, required: int)
    requires Inv(w)
    ensures Inv(w.(b := DropOldest(w.b, required)))
    ensures Frame(w.b, DropOldest(w.b, required)) && DropOldest(w.b, required).resident <= w.b.resident
  {
    var k := DropCount(w.b.nodes, w.b.live, w.b.history, required);
    var one := Shed(w.b, k, Live);
    ShedFrame(w.b, k, Live);
    ShedGood(w.b, k, Live, w.b.nextSeq, w.live, w.history);
    var two := Shed(one, k, History);
    ShedFrame(one, k, History);
    ShedGood(one, k, History, w.b.nextSeq, w.history, w.live);
    SweptKeeps(two);
  }

  /** A consumer that loses its queue and the incoming chunk to its pending gap. */
  lemma LosesChunk(nodes: seq<Node>, c: Consumer, n: nat, s: ConsumerState, t: Track, p: Payload)
    returns (items: seq<Item>, s1: ConsumerState)
    requires ConsumerInv(Items(nodes, c), n, false, s, t) && s.active && p != []
    ensures items == Items(ShedNodes(nodes, |nodes|, c, s), c) && s1 == ShedState(nodes, |nodes|, c, s)
    ensures s1.active && s1.inFlight == s.inFlight
    ensures ConsumerInv(items, n + 1, false, AddGap(s1.(next := None), n + 1, |p|), t.(stream := t.stream + [p]))
    ensures ConsumerInv(items, n + 1, false, AddGap(s1, n + 1, |p|), t.(stream := t.stream + [p]))
  {
    hide Tiles;
    hide Join;
    hide Reached;
    hide Gaps;
    hide SkippedBytes;
    hide ItemBytes;
    hide Items;
    hide ShedNodes;
    hide ShedState;
    items, s1 := ShedRunning(nodes, |nodes|, c, s, t);
    hide Running;
    TilesGrow(t.log, t.stream, p);
    var lost, kept := AddGap(s1.(next := None), n + 1, |p|), AddGap(s1, n + 1, |p|);
    AcceptLost(items, s1, t, p, lost);
    LostInv(items, n, s1, t, p, lost);
    AcceptLost(items, s1, t, p, kept);
    LostInv(items, n, s1, t, p, kept);
  }

  lemma LostInv(items: seq<Item>, n: nat, s1: ConsumerState, t: Track, p: Payload, s2: ConsumerState)
    requires |t.stream| == n && NonEmpty(t.stream) && p != []
    requires Tiles(t.log, t.stream + [p])
    requires s2.unavailable.None? && Running(items, s2, t.(stream := t.stream + [p]))
    ensures ConsumerInv(items, n + 1, false, s2, t.(stream := t.stream + [p]))
  {
    hide Running;
    hide Tiles;
  }

  /** Refusing a chunk for one consumer: its queue and the chunk join its gap. */
  lemma RefuseOne(b: Buffer, c: Consumer, n: nat, t: Track, p: Payload) returns (b': Buffer, t': Track)
    requires Good(b, n, c, t) && p != [] && !b.closed
    ensures b' == RefuseFor(b, c, n + 1, |p|) && t' == Accepted(t, b.State(c).active, p)
    ensures Good(b', n + 1, c, t')
    ensures Frame(b, b') && b'.resident == b.resident && SameChunks(b'.nodes, b.nodes)
    ensures b'.State(Other(c)) == b.State(Other(c)) && Items(b'.nodes, Other(c)) == Items(b.nodes, Other(c))
  {
    hide ConsumerInv;
    hide Items;
    hide ShedNodes;
    hide ShedState;
    b', t' := RefuseFor(b, c, n + 1, |p|), Accepted(t, b.State(c).active, p);
    if b.State(c).active {
      ShedFrame(b, |b.nodes|, c);
      var items, s := LosesChunk(b.nodes, c, n, b.State(c), t, p);
    } else {
      LaterSeq(Items(b.nodes, c), n, b.closed, b.State(c), t);
    }
  }

  lemma LaterSeq(items: seq<Item>, n: nat, closed: bool, s: ConsumerState, t: Track)
    requires ConsumerInv(items, n, closed, s, t) && !s.active
    ensures ConsumerInv(items, n + 1, closed, s, t)
  {
    hide Running;
    hide Failed;
    hide Tiles;
  }

  lemma DropIncomingKeeps(w: World, p: Payload)
    requires Inv(w) && p != [] && !w.b.closed
    ensures Inv(Refused(w, p))
    ensures DropIncoming(w.b, |p|).resident <= w.b.resident
  {
    hide ConsumerInv;
    hide Items;
    hide RefuseFor;
    hide Swept;
    var n := w.b.nextSeq;
    var b0 := w.b.(nextSeq := n + 1);
    var b1, t1 := RefuseOne(b0, Live, n, w.live, p);
    var b2, t2 := RefuseOne(b1, History, n, w.history, p);
    AppendList(b0, b1, b2, n);
    assert Swept(b2) == DropIncoming(w.b, |p|);
  }

  /** Appending for a consumer that owes a gap. */
  lemma AppendLossyOne(b: Buffer, c: Consumer, n: nat, t: Track, p: Payload) returns (b': Buffer)
    requires Good(b, n, c, t) && p != [] && !b.closed
    ensures b' == AppendLossy(b, c, n + 1, |p|)
    ensures b'.State(c).active == b.State(c).active
    ensures b.State(c).active && Lossy(b.State(c)) ==> Lossy(b'.State(c)) && Good(b', n + 1, c, Accepted(t, true, p))
    ensures !(b.State(c).active && Lossy(b.State(c))) ==> b' == b
    ensures Frame(b, b') && b'.resident == b.resident && SameChunks(b'.nodes, b.nodes)
    ensures b'.State(Other(c)) == b.State(Other(c)) && Items(b'.nodes, Other(c)) == Items(b.nodes, Other(c))
  {
    hide ConsumerInv;
    hide Items;
    hide ShedNodes;
    hide ShedState;
    b' := AppendLossy(b, c, n + 1, |p|);
    if b.State(c).active && Lossy(b.State(c)) {
      ShedFrame(b, |b.nodes|, c);
      var items, s := LosesChunk(b.nodes, c, n, b.State(c), t, p);
    }
  }

  /** Listing the chunk for the consumers without a gap. */
  lemma AppendListed(nodes: seq<Node>, mask: set<Consumer>, c: Consumer, n: nat, s: ConsumerState, t: Track, p: Payload)
    requires p != [] && s.active && !Lossy(s) && c in mask
    requires ConsumerInv(Items(nodes, c), n, false, s, t)
    ensures ConsumerInv(Items(nodes + [Node(n + 1, p, mask)], c), n + 1, false, Point(s, true, n + 1),
                        t.(stream := t.stream + [p]))
  {
    var items := Items(nodes, c);
    assert Items(nodes + [Node(n + 1, p, mask)], c) == items + [Item(n + 1, p)] by {
      NodeAppends(nodes, Node(n + 1, p, mask), c);
    }
    AcceptQueued(items, s, t, p);
    TilesGrow(t.log, t.stream, p);
    LostInv(items + [Item(n + 1, p)], n, s, t, p, Point(s, true, n + 1));
  }

  lemma NodeAppends(nodes: seq<Node>, node: Node, c: Consumer)
    ensures Items(nodes + [node], c) == Items(nodes, c) + Mine(node, c)
  {
    ItemsConcat(nodes, [node], c);
    assert Items([node], c) == Mine(node, c) + Items([], c);
  }

  lemma AppendFor(b: Buffer, mask: set<Consumer>, c: Consumer, n: nat, t: Track, p: Payload)
    requires p != [] && !b.closed && (c in mask <==> b.State(c).active && !Lossy(b.State(c)))
    requires b.State(c).active && Lossy(b.State(c)) ==> Good(b, n + 1, c, Accepted(t, true, p))
    requires !(b.State(c).active && Lossy(b.State(c))) ==> Good(b, n, c, t)
    ensures ConsumerInv(Items(b.nodes + [Node(n + 1, p, mask)], c), n + 1, b.closed,
                        Point(b.State(c), c in mask, n + 1), Accepted(t, b.State(c).active, p))
  {
    hide ConsumerInv;
    hide Items;
    NodeAppends(b.nodes, Node(n + 1, p, mask), c);
    assert c !in mask ==> Items(b.nodes, c) + Mine(Node(n + 1, p, mask), c) == Items(b.nodes, c);
    if c in mask {
      AppendListed(b.nodes, mask, c, n, b.State(c), t, p);
    } else if !b.State(c).active {
      LaterSeq(Items(b.nodes, c), n, b.closed, b.State(c), t);
    }
  }

  /** The list once every consumer that owes a gap has lost its queue and the chunk. */
  function AppendBase(b: Buffer, bytes: nat): Buffer {
    Swept(AppendLossy(AppendLossy(b.(nextSeq := b.nextSeq + 1), Live, b.nextSeq + 1, bytes),
                      History, b.nextSeq + 1, bytes))
  }

  ghost predicate ReadyFor(b: Buffer, c: Consumer, n: nat, t: Track, p: Payload) {
    if b.State(c).active && Lossy(b.State(c)) then Good(b, n + 1, c, Accepted(t, true, p)) else Good(b, n, c, t)
  }

  /** Nothing a consumer's readiness depends on changed. */
  ghost predicate SameView(b: Buffer, b': Buffer, c: Consumer) {
    b'.closed == b.closed && b'.State(c) == b.State(c) && Items(b'.nodes, c) == Items(b.nodes, c)
  }

  lemma ReadyMoves(b: Buffer, b': Buffer, c: Consumer, n: nat, t: Track, p: Payload)
    requires ReadyFor(b, c, n, t, p) && SameView(b, b', c)
    ensures ReadyFor(b', c, n, t, p)
  {
    hide ConsumerInv;
    hide Items;
  }

  lemma AppendBaseKeeps(w: World, p: Payload) returns (b': Buffer)
    requires Inv(w) && p != [] && !w.b.closed
    ensures b' == AppendBase(w.b, |p|)
    ensures BufferInv(b') && Shape(b'.nodes, w.b.nextSeq) && b'.resident <= w.b.resident
    ensures Frame(w.b.(nextSeq := w.b.nextSeq + 1), b') && Mask(b') == Mask(w.b)
    ensures b'.live.active == w.b.live.active && b'.history.active == w.b.history.active
    ensures ReadyFor(b', Live, w.b.nextSeq, w.live, p) && ReadyFor(b', History, w.b.nextSeq, w.history, p)
  {
    hide ConsumerInv;
    hide Items;
    hide AppendLossy;
    hide Swept;
    var n := w.b.nextSeq;
    var b0 := w.b.(nextSeq := n + 1);
    var b1 := AppendLossyOne(b0, Live, n, w.live, p);
    var b2 := AppendLossyOne(b1, History, n, w.history, p);
    b' := Swept(b2);
    AppendList(b0, b1, b2, n);
    ReadyMoves(b1, b2, Live, n, w.live, p);
    ReadyMoves(b2, b', Live, n, w.live, p);
    ReadyMoves(b2, b', History, n, w.history, p);
  }

  lemma AppendList(b0: Buffer, b1: Buffer, b2: Buffer, n: nat)
    requires Loose(b0) && Shape(b0.nodes, n) && n < b0.nextSeq
    requires SameChunks(b1.nodes, b0.nodes) && Frame(b0, b1) && b1.resident == b0.resident
    requires SameChunks(b2.nodes, b1.nodes) && Frame(b1, b2) && b2.resident == b1.resident
    ensures BufferInv(Swept(b2)) && Shape(Swept(b2).nodes, n) && Swept(b2).resident <= b0.resident
    ensures Frame(b0, Swept(b2)) && SameView(b2, Swept(b2), Live) && SameView(b2, Swept(b2), History)
  {
    hide Items;
    ChunksKeep(b0, b1.nodes);
    ChunksKeep(b1, b2.nodes);
    SweptKeeps(b2);
    assert Shape(b2.nodes, n);
    ReclaimShape(b2.nodes, n);
  }

  lemma AppendKeeps(w: World, p: Payload)
    requires Inv(w) && p != [] && !w.b.closed && w.b.resident + |p| <= w.b.capacity
    ensures Inv(Numbered(w, Append(w.b, p), p))
    ensures Append(w.b, p).resident <= w.b.resident + |p|
  {
    hide Shape;
    hide NodeBytes;
    hide ConsumerInv;
    hide Items;
    hide AppendLossy;
    hide Swept;
    var n, mask := w.b.nextSeq, Mask(w.b);
    var b3 := AppendBaseKeeps(w, p);
    hide AppendBase;
    hide Lossy;
    AppendFor(b3, mask, Live, n, w.live, p);
    AppendFor(b3, mask, History, n, w.history, p);
    var node := Node(n + 1, p, mask);
    if mask == {} {
      NodeAppends(b3.nodes, node, Live);
      NodeAppends(b3.nodes, node, History);
      assert forall c :: Items(b3.nodes, c) + Mine(node, c) == Items(b3.nodes, c);
    } else {
      AppendedBytes(b3.nodes, node);
      AppendShape(b3.nodes, node);
    }
  }

  lemma AppendedBytes(nodes: seq<Node>, node: Node)
    ensures NodeBytes(nodes + [node]) == NodeBytes(nodes) + |node.payload|
  {
    NodeBytesConcat(nodes, [node]);
    assert NodeBytes([node]) == |node.payload| + NodeBytes([]);
  }

  lemma AppendShape(nodes: seq<Node>, node: Node)
    requires node.seqNo > 0 && Shape(nodes, node.seqNo - 1) && node.payload != []
    ensures Shape(nodes + [node], node.seqNo)
  {
  }

  // ------------------------------------------------------------------ the workers' sections

  lemma TakeKeeps(w: World, c: Consumer)
    requires Inv(w)
    ensures Inv(Step(w, Take(c)))
  {
    hide ConsumerInv;
    hide Items;
    var s, t := w.b.State(c), w.T(c);
    if t.held.Idle? && s.started && (Fetch(w.b, c).TakeBatch? || Fetch(w.b, c).TakeGap?) {
      TakeRunning(Items(w.b.nodes, c), w.b, c, t);
    }
  }

  lemma TakeRunning(items: seq<Item>, b: Buffer, c: Consumer, t: Track)
    requires ConsumerInv(items, b.nextSeq, b.closed, b.State(c), t) && items == Items(b.nodes, c)
    requires t.held.Idle? && (Fetch(b, c).TakeBatch? || Fetch(b, c).TakeGap?)
    ensures var b', out := FetchState(b, c), Fetch(b, c);
            ConsumerInv(items, b.nextSeq, b.closed, b'.State(c),
                        t.(held := if out.TakeBatch? then HoldsBatch(out.batch) else HoldsGap(out.gap)))
  {
    hide Items;
    hide Join;
    hide Running;
    hide Tiles;
    var s := b.State(c);
    IdleIsEmpty(items, s, t);
    if s.pendingGapBytes > 0 {
      TakesGap(items, s, t);
    } else {
      var span, held := TakesBatch(items, s, t, BatchCount(items));
    }
  }

  lemma IdleIsEmpty(items: seq<Item>, s: ConsumerState, t: Track)
    requires Running(items, s, t) && t.held.Idle?
    ensures Empty(s)
  {
  }

  /** The list after a batch was acknowledged, for both consumers. */
  lemma AckList(b: Buffer, c: Consumer, s: ConsumerState)
    requires Loose(b) && s == b.State(c) && s.inFlight.Some?
    ensures var nodes := AckNodes(b.nodes, c, s.inFlight.value);
            && SameChunks(nodes, b.nodes) && Loose(b.(nodes := nodes))
            && Items(nodes, c) == Gone(Items(b.nodes, c), s)
            && Items(nodes, Other(c)) == Items(b.nodes, Other(c))
  {
    AckOther(b.nodes, c, s.inFlight.value);
    AckOwn(b.nodes, c, s);
    ChunksKeep(b, AckNodes(b.nodes, c, s.inFlight.value));
  }

  lemma NextAfterAck(nodes: seq<Node>, c: Consumer, last: nat, nextSeq: nat, queue: seq<Item>)
    requires Shape(nodes, nextSeq) && queue == Items(nodes, c)
    requires forall it :: it in queue ==> it.seqNo > last
    ensures FirstPending(After(nodes, last), c) == FirstOf(queue)
  {
    hide Items;
    AfterItems(nodes, c, last, nextSeq);
    FirstPendingIsFirstItem(After(nodes, last), c);
  }

  lemma QueueBeyond(items: seq<Item>, s: ConsumerState, t: Track)
    requires Running(items, s, t) && s.inFlight.Some?
    ensures forall it :: it in Gone(items, s) ==> it.seqNo > s.inFlight.value.last
    ensures s.completedSeq < s.inFlight.value.last
  {
    AckedView(items, s, t);
  }

  lemma HeldBatch(items: seq<Item>, nextSeq: nat, closed: bool, s: ConsumerState, t: Track)
    requires ConsumerInv(items, nextSeq, closed, s, t) && t.held.HoldsBatch?
    ensures s.unavailable.None? && Running(items, s, t)
    ensures s.inFlight == Some(t.held.batch.span) && s.gapInFlight.None?
  {
  }

  lemma HeldGap(items: seq<Item>, nextSeq: nat, closed: bool, s: ConsumerState, t: Track)
    requires ConsumerInv(items, nextSeq, closed, s, t) && t.held.HoldsGap?
    ensures s.unavailable.None? && Running(items, s, t) && s.gapInFlight == Some(t.held.gap)
  {
  }

  /** Only facts about the consumer and the stream's length matter besides `Running`. */
  lemma StillRunning(items: seq<Item>, nextSeq: nat, closed: bool, s: ConsumerState, s': ConsumerState, t: Track, t': Track)
    requires NonEmpty(t.stream) && |t.stream| <= nextSeq
    requires s.active ==> |t.stream| == nextSeq && !closed
    requires s'.active ==> s.active
    requires s'.unavailable.None? && t'.stream == t.stream
    requires Tiles(t'.log, t'.stream) && Running(items, s', t')
    ensures ConsumerInv(items, nextSeq, closed, s', t')
  {
    hide Running;
    hide Tiles;
  }

  lemma BatchDoneInv(items: seq<Item>, nextSeq: nat, closed: bool, s: ConsumerState, t: Track)
    returns (queue: seq<Item>, s': ConsumerState, t': Track)
    requires ConsumerInv(items, nextSeq, closed, s, t) && t.held.HoldsBatch?
    ensures s.inFlight == Some(t.held.batch.span) && queue == Gone(items, s)
    ensures s' == s.(inFlight := None, completedSeq := s.inFlight.value.last, next := FirstOf(queue))
    ensures t' == t.(held := Idle, log := t.log + [Ingested(t.held.batch.payload, t.held.batch.span.last)])
    ensures ConsumerInv(queue, nextSeq, closed, s', t')
  {
    hide Running;
    hide Tiles;
    hide Gone;
    HeldBatch(items, nextSeq, closed, s, t);
    var e, q := BatchDone(items, s, t);
    queue := q;
    s' := s.(inFlight := None, completedSeq := s.inFlight.value.last, next := FirstOf(queue));
    t' := t.(held := Idle, log := t.log + [e]);
    StillRunning(queue, nextSeq, closed, s, s', t, t');
  }

  /** One consumer's marks, state and track change; the list is swept. */
  lemma Replaced(w: World, c: Consumer, nodes: seq<Node>, s: ConsumerState, t: Track)
    requires Inv(w) && SameChunks(nodes, w.b.nodes)
    requires Items(nodes, Other(c)) == Items(w.b.nodes, Other(c))
    requires ConsumerInv(Items(nodes, c), w.b.nextSeq, w.b.closed, s, t)
    ensures Inv(w.(b := Swept(w.b.(nodes := nodes).With(c, s))).With(c, t))
  {
    hide ConsumerInv;
    hide Items;
    hide Swept;
    ChunksKeep(w.b, nodes);
    SweptKeeps(w.b.(nodes := nodes).With(c, s));
  }

  lemma FinishBatchOk(w: World, c: Consumer, failurePending: bool)
    requires Inv(w) && w.T(c).held.HoldsBatch?
    ensures Inv(Step(w, FinishBatch(c, false, failurePending)))
  {
    hide ConsumerInv;
    hide Items;
    hide AckNodes;
    hide Swept;
    var s, t := w.b.State(c), w.T(c);
    var items := Items(w.b.nodes, c);
    var queue, s', t' := BatchDoneInv(items, w.b.nextSeq, w.b.closed, s, t);
    var nodes := AckNodes(w.b.nodes, c, s.inFlight.value);
    AckList(w.b, c, s);
    AckedCursor(items, w.b.nextSeq, w.b.closed, s, t, nodes, c);
    Replaced(w, c, nodes, s', t');
  }

  /** Where the cursor goes once the batch is acknowledged. */
  lemma AckedCursor(items: seq<Item>, nextSeq: nat, closed: bool, s: ConsumerState, t: Track, nodes: seq<Node>, c: Consumer)
    requires ConsumerInv(items, nextSeq, closed, s, t) && t.held.HoldsBatch?
    requires Shape(nodes, nextSeq) && Items(nodes, c) == Gone(items, s)
    ensures s.inFlight == Some(t.held.batch.span)
    ensures FirstPending(After(nodes, s.inFlight.value.last), c) == FirstOf(Gone(items, s))
    ensures Max(s.completedSeq, s.inFlight.value.last) == s.inFlight.value.last
  {
    hide Items;
    hide Gone;
    hide Running;
    HeldBatch(items, nextSeq, closed, s, t);
    QueueBeyond(items, s, t);
    NextAfterAck(nodes, c, s.inFlight.value.last, nextSeq, Gone(items, s));
  }

  /** What is left of a consumer whose handler failed. */
  ghost predicate Dead(s: ConsumerState) {
    && !s.active && s.inFlight.None? && s.gapInFlight.None? && s.next.None?
    && s.pendingGapBytes == 0 && s.unavailable.Some?
  }

  lemma BatchFailedInv(items: seq<Item>, nextSeq: nat, closed: bool, s: ConsumerState, t: Track, s': ConsumerState)
    requires ConsumerInv(items, nextSeq, closed, s, t) && t.held.HoldsBatch? && Dead(s')
    requires var payload, rest := t.held.batch.payload, ItemBytes(Gone(items, s));
             && s'.unavailable.value.droppedBytes == |payload| + s.pendingGapBytes + rest
             && s'.droppedBytes == s.droppedBytes + |payload| + rest
    ensures ConsumerInv([], nextSeq, closed, s', t.(held := Idle))
  {
    hide Running;
    hide Tiles;
    hide Gone;
    hide ItemBytes;
    HeldBatch(items, nextSeq, closed, s, t);
    BatchFails(items, s, t);
  }

  lemma FinishBatchFailed(w: World, c: Consumer, failurePending: bool)
    requires Inv(w) && w.T(c).held.HoldsBatch?
    ensures Inv(Step(w, FinishBatch(c, true, failurePending)))
  {
    hide Shape;
    hide Tiles;
    hide Running;
    hide ConsumerInv;
    hide Items;
    hide ItemBytes;
    hide Gone;
    hide AckNodes;
    hide ReleaseNodes;
    hide Swept;
    var s, t := w.b.State(c), w.T(c);
    var items := Items(w.b.nodes, c);
    HeldBatch(items, w.b.nextSeq, w.b.closed, s, t);
    var nodes := AckNodes(w.b.nodes, c, s.inFlight.value);
    AckList(w.b, c, s);
    ReleaseViews(nodes, c);
    var s' := BatchFailure(w.b, c, t.held.batch, failurePending);
    BatchFailedInv(items, w.b.nextSeq, w.b.closed, s, t, s');
    Replaced(w, c, ReleaseNodes(nodes, c), s', t.(held := Idle));
  }

  lemma GapFailedInv(items: seq<Item>, nextSeq: nat, closed: bool, s: ConsumerState, t: Track, s': ConsumerState)
    requires ConsumerInv(items, nextSeq, closed, s, t) && t.held.HoldsGap? && Dead(s')
    requires s'.unavailable.value.droppedBytes == t.held.gap.droppedBytes + s.pendingGapBytes + ItemBytes(items)
    requires s'.droppedBytes == s.droppedBytes + ItemBytes(items)
    ensures ConsumerInv([], nextSeq, closed, s', t.(held := Idle))
  {
    hide Running;
    hide Tiles;
    hide ItemBytes;
    HeldGap(items, nextSeq, closed, s, t);
    GapFails(items, s, t);
  }

  lemma FinishGapFailed(w: World, c: Consumer, failurePending: bool)
    requires Inv(w) && w.T(c).held.HoldsGap?
    ensures Inv(Step(w, FinishGap(c, true, failurePending)))
  {
    hide ConsumerInv;
    hide Items;
    hide ItemBytes;
    hide ReleaseNodes;
    hide Swept;
    hide Running;
    var s, t := w.b.State(c), w.T(c);
    var items := Items(w.b.nodes, c);
    HeldGap(items, w.b.nextSeq, w.b.closed, s, t);
    GapHasNoBatch(items, s, t);
    ReleaseViews(w.b.nodes, c);
    var s' := GapFailure(w.b, c, t.held.gap, failurePending);
    GapFailedInv(items, w.b.nextSeq, w.b.closed, s, t, s');
    Replaced(w, c, ReleaseNodes(w.b.nodes, c), s', t.(held := Idle));
  }

  lemma GapHasNoBatch(items: seq<Item>, s: ConsumerState, t: Track)
    requires Running(items, s, t) && s.gapInFlight.Some?
    ensures s.inFlight.None? && s.completedSeq < s.gapInFlight.value.throughSeq
  {
  }

  lemma GapDoneInv(items: seq<Item>, nextSeq: nat, closed: bool, s: ConsumerState, t: Track)
    returns (s': ConsumerState, t': Track)
    requires ConsumerInv(items, nextSeq, closed, s, t) && t.held.HoldsGap?
    ensures s.gapInFlight == Some(t.held.gap) && s.completedSeq < t.held.gap.throughSeq
    ensures s' == s.(gapInFlight := None, epoch := t.held.gap.epoch, completedSeq := t.held.gap.throughSeq)
    ensures t' == t.(held := Idle, log := t.log + [Skipped(t.held.gap)])
    ensures ConsumerInv(items, nextSeq, closed, s', t')
  {
    hide Running;
    hide Tiles;
    HeldGap(items, nextSeq, closed, s, t);
    GapDone(items, s, t);
    GapHasNoBatch(items, s, t);
    s' := s.(gapInFlight := None, epoch := t.held.gap.epoch, completedSeq := t.held.gap.throughSeq);
    t' := t.(held := Idle, log := t.log + [Skipped(t.held.gap)]);
    StillRunning(items, nextSeq, closed, s, s', t, t');
  }

  lemma FinishGapOk(w: World, c: Consumer, failurePending: bool)
    requires Inv(w) && w.T(c).held.HoldsGap?
    ensures Inv(Step(w, FinishGap(c, false, failurePending)))
  {
    hide ConsumerInv;
    hide Items;
    hide Swept;
    var s', t' := GapDoneInv(Items(w.b.nodes, c), w.b.nextSeq, w.b.closed, w.b.State(c), w.T(c));
    Replaced(w, c, w.b.nodes, s', t');
  }

  // ------------------------------------------------------------------ closing

  lemma CloseOne(b: Buffer, c: Consumer, t: Track) returns (b': Buffer)
    requires ConsumerInv(Items(b.nodes, c), b.nextSeq, false, b.State(c), t) && b.closed
    ensures b' == CloseFor(b, c)
    ensures Good(b', b.nextSeq, c, t)
    ensures Frame(b, b') && b'.resident == b.resident && SameChunks(b'.nodes, b.nodes)
    ensures b'.State(Other(c)) == b.State(Other(c)) && Items(b'.nodes, Other(c)) == Items(b.nodes, Other(c))
  {
    hide Items;
    hide ShedNodes;
    hide ShedState;
    hide Running;
    hide Tiles;
    hide Failed;
    b' := CloseFor(b, c);
    if b.State(c).active {
      ShedFrame(b, |b.nodes|, c);
      var items, s := ShedRunning(b.nodes, |b.nodes|, c, b.State(c), t);
      CloseDone(items, s, t);
    }
  }

  lemma CloseKeeps(w: World)
    requires Inv(w)
    ensures Inv(w.(b := Close(w.b)))
  {
    if !w.b.closed {
      hide ConsumerInv;
      hide Items;
      hide CloseFor;
      var b0 := w.b.(closed := true);
      var b1 := CloseOne(b0, Live, w.live);
      var b2 := CloseOne(b1, History, w.history);
      ChunksKeep(b0, b1.nodes);
      ChunksKeep(b1, b2.nodes);
      SweptKeeps(b2);
    }
  }

  // ------------------------------------------------------------------ all runs

  lemma FreshInv(items: seq<Item>, s: ConsumerState, t: Track)
    requires items == [] && s == FreshConsumer(s.active) && t.stream == [] && t.log == [] && t.held == Idle
    ensures ConsumerInv(items, 0, false, s, t)
  {
    NoBytes(t.stream, 0);
  }

  lemma InitialInv(capacity: nat, policy: Policy, historyEnabled: bool)
    ensures Inv(Initial(capacity, policy, historyEnabled))
  {
    hide ConsumerInv;
    var w := Initial(capacity, policy, historyEnabled);
    FreshInv(Items(w.b.nodes, Live), w.b.live, w.live);
    FreshInv(Items(w.b.nodes, History), w.b.history, w.history);
  }

  lemma FlagsInv(items: seq<Item>, nextSeq: nat, closed: bool, s: ConsumerState, s': ConsumerState, t: Track)
    requires ConsumerInv(items, nextSeq, closed, s, t)
    requires s' == s.(started := s'.started, failurePending := s'.failurePending)
    ensures ConsumerInv(items, nextSeq, closed, s', t)
  {
    hide Tiles;
    hide Join;
    hide ItemBytes;
    hide Reached;
    hide Gaps;
    hide SkippedBytes;
  }

  lemma FlagsKeep(w: World, c: Consumer, s: ConsumerState)
    requires Inv(w)
    requires s == w.b.State(c).(started := s.started, failurePending := s.failurePending)
    ensures Inv(w.(b := w.b.With(c, s)))
  {
    hide Items;
    hide ConsumerInv;
    FlagsInv(Items(w.b.nodes, c), w.b.nextSeq, w.b.closed, w.b.State(c), s, w.T(c));
  }

  /** Every critical section keeps the invariant. */
  lemma StepKeeps(w: World, a: Action)
    requires Inv(w)
    ensures Inv(Step(w, a))
  {
    hide ConsumerInv;
    hide Items;
    hide DropOldest;
    hide DropIncoming;
    hide Append;
    hide Close;
    hide CompleteBatch;
    hide CompleteGap;
    match a
    case Admit(p) =>
    case Squeeze(p) =>
      DropOldestKeeps(w, |p|);
      var d := w.(b := DropOldest(w.b, |p|));
      if p != [] && !w.b.closed { DropIncomingKeeps(d, p); }
    case Commit =>
      if w.writer.Some? && !w.b.closed { AppendKeeps(w, w.writer.value); }
    case Abandon =>
      if w.writer.Some? && !w.b.closed { DropIncomingKeeps(w, w.writer.value); }
    case Evict(required) => DropOldestKeeps(w, required);
    case Begin(c) => FlagsKeep(w, c, w.b.State(c).(started := true));
    case Take(c) => TakeKeeps(w, c);
    case FinishBatch(c, failed, failurePending) =>
      if w.T(c).held.HoldsBatch? {
        if failed { FinishBatchFailed(w, c, failurePending); } else { FinishBatchOk(w, c, failurePending); }
      }
    case FinishGap(c, failed, failurePending) =>
      if w.T(c).held.HoldsGap? {
        if failed { FinishGapFailed(w, c, failurePending); } else { FinishGapOk(w, c, failurePending); }
      }
    case FailureHandled(c) => FlagsKeep(w, c, w.b.State(c).(failurePending := false));
    case Seal =>
    case CloseAll => CloseKeeps(w);
  }

  lemma {:induction false} RunKeeps(w: World, actions: seq<Action>)
    requires Inv(w)
    ensures Inv(Run(w, actions))
    decreases |actions|
  {
    hide Inv;
    hide Step;
    if actions != [] {
      StepKeeps(w, actions[0]);
      RunKeeps(Step(w, actions[0]), actions[1..]);
    }
  }
}
