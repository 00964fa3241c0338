/**
 The output buffer as the mutable object it is: a list, marks, cursors and counters changed
 in place by loops. Each public method is one critical section, proved to be exactly one
 `Step` of the value model, so everything proved of runs holds of the object.

 Cursors name their node by its sequence number, which no two listed nodes share.
 */
module OutputClass {
  import opened OutputModel
  import opened OutputLemmas
  import opened OutputProofs
  import opened OutputRuns
  import opened OutputLoops
  import opened OutputReleases
  import OutputEffects

  class TerminalOutputBuffer {
    const capacity: nat
    const policy: Policy
    var nodes: seq<Node>
    var resident: int
    var nextSeq: nat
    var closed: bool
    var sealed: bool
    var live: ConsumerState
    var history: ConsumerState
    /** The chunk whose writer passed the capacity check and holds the write lock. */
    var writer: Option<Payload>

    /** The same buffer as a value, with everything written and delivered so far. */
    ghost var world: World

    ghost function View(): Buffer
      reads this
    {
      Buffer(capacity, policy, nodes, resident, nextSeq, closed, sealed, live, history)
    }

    ghost predicate Valid()
      reads this
    {
      world.b == View() && world.writer == writer && Inv(world)
    }

    function State(c: Consumer): ConsumerState
      reads this
    {
      if c == Live then live else history
    }

    method Put(c: Consumer, s: ConsumerState)
      modifies this`live, this`history
      ensures State(c) == s && State(Other(c)) == old(State(Other(c)))
    {
      if c == Live { live := s; } else { history := s; }
    }

    constructor (capacity: nat, policy: Policy, historyEnabled: bool)
      ensures Valid() && world == Initial(capacity, policy, historyEnabled)
    {
      hide Inv;
      this.capacity, this.policy := capacity, policy;
      nodes, resident, nextSeq, closed, sealed := [], 0, 0, false, false;
      live, history, writer := FreshConsumer(true), FreshConsumer(historyEnabled), None;
      world := Initial(capacity, policy, historyEnabled);
      InitialInv(capacity, policy, historyEnabled);
    }

    // ---------------------------------------------------------------- walks

    /** nextPendingNodeLocked: the first place from `from` on that is pending for c, or the end. */
    method NextPending(c: Consumer, from: nat) returns (r: nat)
      requires from <= |nodes|
      ensures from <= r <= |nodes|
      ensures forall i :: from <= i < r ==> c !in nodes[i].pending
      ensures r < |nodes| ==> c in nodes[r].pending
      ensures FirstPending(nodes[from..], c) == if r < |nodes| then Some(nodes[r].seqNo) else None
    {
      r := from;
      while r < |nodes| && c !in nodes[r].pending
        invariant from <= r <= |nodes|
        invariant forall i :: from <= i < r ==> c !in nodes[i].pending
      {
        r := r + 1;
      }
      FirstPendingAt(nodes, c, from, r);
    }

    /** Follows a cursor to its place in the list. */
    method Locate(seqNo: nat) returns (r: nat)
      ensures r <= |nodes|
      ensures forall i :: 0 <= i < r ==> nodes[i].seqNo != seqNo
      ensures r < |nodes| ==> nodes[r].seqNo == seqNo
    {
      r := 0;
      while r < |nodes| && nodes[r].seqNo != seqNo
        invariant r <= |nodes|
        invariant forall i :: 0 <= i < r ==> nodes[i].seqNo != seqNo
      {
        r := r + 1;
      }
    }

    // ---------------------------------------------------------------- edits of the list

    /** Turns everything c has queued into its gap. */
    method MarkGone(c: Consumer)
      modifies this`nodes, this`live, this`history
      ensures nodes == ShedNodes(old(nodes), |old(nodes)|, c, old(State(c)))
      ensures State(c) == AddGaps(old(State(c)), ShedItems(old(nodes), |old(nodes)|, c, old(State(c))))
      ensures State(Other(c)) == old(State(Other(c)))
    {
      hide AddGaps;
      hide ShedItems;
      var s := State(c);
      var i := 0;
      assert nodes == ShedNodes(nodes, 0, c, s) && s == AddGaps(s, ShedItems(nodes, 0, c, s)) by {
        ShedNothing(nodes, c, s);
      }
      while i < |nodes|
        invariant i <= |nodes| == |old(nodes)|
        invariant nodes == ShedNodes(old(nodes), i, c, old(State(c)))
        invariant s == AddGaps(old(State(c)), ShedItems(old(nodes), i, c, old(State(c))))
        invariant live == old(live) && history == old(history)
      {
        ShedVisit(old(nodes), i, c, old(State(c)));
        AddGapsKeeps(old(State(c)), ShedItems(old(nodes), i, c, old(State(c))));
        var node := nodes[i];
        if c in node.pending && !InFlight(s, node.seqNo) {
          nodes := nodes[i := node.(pending := node.pending - {c})];
          s := AddGap(s, node.seqNo, |node.payload|);
        } else {
          UnmarkedStays(node, c, s);
        }
        i := i + 1;
      }
      Put(c, s);
    }

    /** reclaimLocked: unlinks every node nobody waits for. */
    method Sweep() returns (freed: int)
      modifies this`nodes, this`resident
      ensures nodes == Reclaim(old(nodes))
      ensures freed == NodeBytes(old(nodes)) - NodeBytes(nodes) && resident == old(resident) - freed
    {
      hide NodeBytes;
      freed := 0;
      var i := 0;
      assert nodes[..0] + Reclaim(nodes[0..]) == Reclaim(nodes) by { assert nodes[0..] == nodes; }
      while i < |nodes|
        invariant i <= |nodes|
        invariant nodes[..i] + Reclaim(nodes[i..]) == Reclaim(old(nodes))
        invariant freed == NodeBytes(old(nodes)) - NodeBytes(nodes) && resident == old(resident) - freed
        decreases |nodes| - i
      {
        if nodes[i].pending != {} {
          ReclaimKeeps(nodes, i);
          i := i + 1;
        } else {
          ReclaimCuts(nodes, i, nodes[..i] + nodes[i + 1..]);
          freed := freed + |nodes[i].payload|;
          resident := resident - |nodes[i].payload|;
          nodes := nodes[..i] + nodes[i + 1..];
        }
      }
      assert nodes[..i] == nodes && nodes[i..] == [];
    }

    // ---------------------------------------------------------------- dropOldestLocked

    /** One consumer at one node: a queued mark goes into its gap, and a cursor there moves on. */
    method Visit(i: nat, c: Consumer)
      requires i < |nodes|
      modifies this`nodes, this`live, this`history
      ensures nodes == old(nodes)[i := ShedNode(old(nodes[i]), c, old(State(c)))]
      ensures State(c) == Visited(old(nodes), i, c, old(State(c)))
      ensures State(Other(c)) == old(State(Other(c)))
    {
      hide FirstPending;
      var s, node := State(c), nodes[i];
      if c !in node.pending || InFlight(s, node.seqNo) {
        UnmarkedStays(node, c, s);
        return;
      }
      nodes := nodes[i := node.(pending := node.pending - {c})];
      s := AddGap(s, node.seqNo, |node.payload|);
      if s.next == Some(node.seqNo) {
        assert nodes[i + 1..] == old(nodes)[i + 1..];
        var r := NextPending(c, i + 1);
        s := s.(next := if r < |nodes| then Some(nodes[r].seqNo) else None);
      }
      Put(c, s);
    }

    method VisitOldest(required: int) returns (ghost k: nat)
      requires Shape(nodes, nextSeq) && FlightFirst(nodes, Live, live) && FlightFirst(nodes, History, history)
      modifies this`nodes, this`live, this`history
      ensures k == DropCount(old(nodes), old(live), old(history), required)
      ensures nodes == ShedBoth(old(nodes), k, old(live), old(history))
      ensures live == ShedState(old(nodes), k, Live, old(live))
      ensures history == ShedState(old(nodes), k, History, old(history))
    {
      hide DropCount;
      hide ShedState;
      hide Shape;
      hide FlightFirst;
      hide Visited;
      var potential, i := 0, 0;
      ghost var N, L, H := nodes, live, history;
      StartVisits(N, L, H);
      while i < |nodes| && potential < required
        invariant i <= |nodes| == |N|
        invariant nodes == ShedBoth(N, i, L, H)
        invariant live == ShedState(N, i, Live, L) && history == ShedState(N, i, History, H)
        invariant DropCount(N, L, H, required) == i + DropCount(N[i..], L, H, required - potential)
      {
        VisitSheds(N, i, Live, L, nextSeq);
        VisitSheds(N, i, History, H, nextSeq);
        DropCountStep(N, i, L, H, required - potential);
        BothVisited(N[i], L, H);
        VisitedLocally(nodes, N, i, Live, live);
        Visit(i, Live);
        assert N[i].payload == nodes[i].payload;
        VisitedLocally(nodes, N, i, History, history);
        Visit(i, History);
        assert nodes == ShedBoth(N, i + 1, L, H);
        if nodes[i].pending == {} {
          potential := potential + |nodes[i].payload|;
        }
        i := i + 1;
      }
      k := i;
      DropCountEnd(N[i..], L, H, required - potential);
    }

    /** Returns the bytes it freed. */
    method DropOldestLocked(required: int) returns (freed: int)
      requires BufferInv(View()) && FlightFirst(nodes, Live, live) && FlightFirst(nodes, History, history)
      modifies this`nodes, this`resident, this`live, this`history
      ensures View() == DropOldest(old(View()), required)
      ensures freed == old(resident) - resident
    {
      hide DropCount;
      hide FlightFirst;
      hide ShedItems;
      hide AddGaps;
      hide FirstPending;
      hide NodeBytes;
      if required <= 0 {
        DropNothing(View(), required);
        return 0;
      }
      ghost var k := VisitOldest(required);
      ShedStateApart(old(nodes), k, History, old(history), old(live));
      freed := Sweep();
    }

    // ---------------------------------------------------------------- losing a chunk

    method RefuseLocked(c: Consumer, seqNo: nat, bytes: nat)
      modifies this`nodes, this`live, this`history
      ensures View() == RefuseFor(old(View()), c, seqNo, bytes)
    {
      hide AddGaps;
      hide ShedItems;
      hide FirstPending;
      if State(c).active {
        MarkGone(c);
        Put(c, AddGap(State(c).(next := None), seqNo, bytes));
      }
    }

    method DropIncomingLocked(bytes: nat) returns (freed: int)
      modifies this`nodes, this`resident, this`nextSeq, this`live, this`history
      ensures View() == DropIncoming(old(View()), bytes)
      ensures freed == old(resident) - resident
    {
      hide NodeBytes;
      hide RefuseFor;
      nextSeq := nextSeq + 1;
      RefuseLocked(Live, nextSeq, bytes);
      RefuseLocked(History, nextSeq, bytes);
      freed := Sweep();
    }

    // ---------------------------------------------------------------- appending

    method LoseLocked(c: Consumer, seqNo: nat, bytes: nat)
      requires Anchored(Items(nodes, c), State(c)) && State(c).active && Lossy(State(c))
      modifies this`nodes, this`live, this`history
      ensures View() == AppendLossy(old(View()), c, seqNo, bytes)
    {
      hide AddGaps;
      hide ShedItems;
      hide FirstPending;
      hide Items;
      hide Anchored;
      if State(c).inFlight.Some? { FlightCursorKept(nodes, c, State(c)); }
      AddGapsKeeps(State(c), ShedItems(nodes, |nodes|, c, State(c)));
      MarkGone(c);
      if State(c).inFlight.None? {
        Put(c, State(c).(next := None));
      }
      Put(c, AddGap(State(c), seqNo, bytes));
    }

    /** One consumer's turn when a chunk is numbered: whether it gets the chunk. */
    method Charge(c: Consumer, seqNo: nat, bytes: nat) returns (wanted: bool)
      requires Anchored(Items(nodes, c), State(c))
      modifies this`nodes, this`live, this`history
      ensures View() == AppendLossy(old(View()), c, seqNo, bytes)
      ensures wanted == (old(State(c)).active && !Lossy(old(State(c))))
      ensures State(Other(c)) == old(State(Other(c))) && Items(nodes, Other(c)) == old(Items(nodes, Other(c)))
    {
      hide AppendLossy;
      hide Items;
      hide Anchored;
      LoseOther(View(), c, seqNo, bytes);
      NotLossy(View(), c, seqNo, bytes);
      wanted := State(c).active && !Lossy(State(c));
      if State(c).active && Lossy(State(c)) {
        LoseLocked(c, seqNo, bytes);
      }
    }

    /** The second half of writeChunk. Returns what goes back to the shared budget. */
    method AppendLocked(payload: Payload) returns (released: int)
      requires Anchored(Items(nodes, Live), live) && Anchored(Items(nodes, History), history)
      modifies this`nodes, this`resident, this`nextSeq, this`live, this`history
      ensures View() == Append(old(View()), payload)
      ensures released == old(resident) + |payload| - resident
    {
      hide AppendLossy;
      hide Items;
      hide Anchored;
      hide NodeBytes;
      hide Reclaim;
      nextSeq := nextSeq + 1;
      var toLive := Charge(Live, nextSeq, |payload|);
      var toHistory := Charge(History, nextSeq, |payload|);
      var mask := (if toLive then {Live} else {}) + (if toHistory then {History} else {});
      assert mask == Mask(old(View()));
      released := Sweep();
      if mask == {} {
        released := released + |payload|;
      } else {
        nodes := nodes + [Node(nextSeq, payload, mask)];
        resident := resident + |payload|;
        live := Point(live, Live in mask, nextSeq);
        history := Point(history, History in mask, nextSeq);
      }
    }

    // ---------------------------------------------------------------- next

    /** The next queued chunk from a place on, and what c sees from there. */
    method NextQueued(c: Consumer, from: nat) returns (r: nat, ghost rest: seq<Item>)
      requires from <= |nodes|
      ensures from <= r <= |nodes|
      ensures rest == Items(nodes[from..], c)
      ensures r == |nodes| ==> rest == []
      ensures r < |nodes| ==> rest == [Item(nodes[r].seqNo, nodes[r].payload)] + Items(nodes[r + 1..], c)
    {
      hide Items;
      r := NextPending(c, from);
      rest := Items(nodes[from..], c);
      FirstPendingAt(nodes, c, from, r);
      if r < |nodes| { ItemsHere(nodes, r, c); } else { ItemsAtEnd(nodes, r, c); }
    }

    /** The batch that starts at place j, as many queued chunks as fit. */
    method Gather(c: Consumer, j: nat, ghost queue: seq<Item>) returns (batch: Batch)
      requires j < |nodes| && c in nodes[j].pending && queue == Items(nodes[j..], c)
      ensures queue != []
      ensures batch == Batch(Span(nodes[j].seqNo, queue[BatchCount(queue) - 1].seqNo), Join(queue[..BatchCount(queue)]))
    {
      hide Items;
      hide Join;
      hide BatchMore;
      hide BatchCount;
      hide Gathering;
      ItemsHere(nodes, j, c);
      GatherStarts(queue);
      var last, payload := nodes[j].seqNo, nodes[j].payload;
      var k, rest := NextQueued(c, j + 1);
      assert queue[1..] == rest;
      ghost var m := 1;
      while k < |nodes| && |payload| + |nodes[k].payload| <= CHUNK_BYTES
        invariant j < k <= |nodes| && Gathering(queue, rest, last, payload, m)
        invariant if k == |nodes| then rest == []
                  else rest == [Item(nodes[k].seqNo, nodes[k].payload)] + Items(nodes[k + 1..], c)
      {
        GatherTakes(queue, rest, last, payload, m);
        assert rest[1..] == Items(nodes[k + 1..], c);
        last, payload, m := nodes[k].seqNo, payload + nodes[k].payload, m + 1;
        k, rest := NextQueued(c, k + 1);
      }
      GatherStops(queue, rest, last, payload, m);
      batch := Batch(Span(nodes[j].seqNo, last), payload);
    }

    method TakeLocked(c: Consumer) returns (r: Fetched)
      requires Shape(nodes, nextSeq) && Anchored(Items(nodes, c), State(c)) && State(c).inFlight.None?
      modifies this`live, this`history
      ensures r == Fetch(old(View()), c) && View() == FetchState(old(View()), c)
    {
      hide Items;
      hide Join;
      hide BatchMore;
      hide FirstPending;
      var s := State(c);
      if s.active && s.pendingGapBytes == 0 && s.next.None? && !sealed && !closed {
        return Wait;
      }
      if !s.active || closed {
        return Stop;
      }
      if s.pendingGapBytes > 0 {
        var gap := Gap(s.epoch + 1, s.pendingGapBytes, s.pendingGapSeq);
        Put(c, s.(pendingGapBytes := 0, pendingGapSeq := 0, gapInFlight := Some(gap)));
        return TakeGap(gap);
      }
      if s.next.None? {
        return Stop;
      }
      FirstPendingIsFirstItem(nodes, c);
      ghost var f := FirstPlace(nodes, c);
      var j := Locate(s.next.value);
      CursorPlace(nodes, c, nextSeq, j);
      var batch := Gather(c, j, Items(nodes, c));
      Put(c, s.(inFlight := Some(batch.span)));
      r := TakeBatch(batch);
    }

    // ---------------------------------------------------------------- completing

    /** Clears one mark, and moves completedSeq along. */
    method AckOne(c: Consumer, k: nat, completed: nat) returns (completedSeq: nat)
      requires k < |nodes|
      modifies this`nodes
      ensures nodes == old(nodes)[k := old(nodes[k]).(pending := old(nodes[k]).pending - {c})]
      ensures completedSeq == Max(completed, old(nodes[k]).seqNo)
    {
      completedSeq := completed;
      var node := nodes[k];
      if c in node.pending {
        nodes := nodes[k := node.(pending := node.pending - {c})];
      } else {
        assert node.pending - {c} == node.pending;
      }
      if node.seqNo > completedSeq { completedSeq := node.seqNo; }
    }

    /** Clears c's mark on the batch's nodes, one by one. */
    method Acknowledge(c: Consumer, span: Span, ghost first: nat, ghost last: nat) returns (completedSeq: nat)
      requires Shape(nodes, nextSeq) && first <= last < |nodes|
      requires c in nodes[first].pending && nodes[first].seqNo == span.first
      requires c in nodes[last].pending && nodes[last].seqNo == span.last
      modifies this`nodes
      ensures nodes == AckNodes(old(nodes), c, span)
      ensures completedSeq == Max(State(c).completedSeq, span.last)
    {
      hide Shape;
      hide AckNodes;
      ghost var N := nodes;
      completedSeq := State(c).completedSeq;
      var k := Locate(span.first);
      InOrder(N, nextSeq, first, k);
      InOrder(N, nextSeq, k, first);
      AckBegins(N, c, span, nextSeq, k);
      while nodes[k].seqNo != span.last
        invariant first <= k <= last && c in N[k].pending && nodes == Acked(N, c, span, k)
        invariant State(c).completedSeq <= completedSeq <= Max(State(c).completedSeq, N[k].seqNo)
        decreases last - k
      {
        AckVisit(N, c, span, nextSeq, first, k, last);
        completedSeq := AckOne(c, k, completedSeq);
        InOrder(N, nextSeq, k, last);
        var after := NextPending(c, k + 1);
        assert forall i :: k < i < |N| ==> nodes[i] == N[i];
        InOrder(N, nextSeq, k, after);
        AckSkips(N, c, span, k + 1, after);
        k := after;
      }
      InOrder(N, nextSeq, k, last);
      AckVisit(N, c, span, nextSeq, first, k, last);
      AckEnds(N, c, span, nextSeq, last);
      completedSeq := AckOne(c, k, completedSeq);
    }

    /** releaseConsumerLocked: takes c's marks off from a place on, and returns the bytes they held. */
    method ReleaseFrom(c: Consumer, from: nat) returns (released: nat)
      requires from <= |nodes| && forall i :: 0 <= i < from ==> c !in nodes[i].pending
      modifies this`nodes
      ensures nodes == ReleaseNodes(old(nodes), c)
      ensures released == ItemBytes(Items(old(nodes), c))
    {
      hide Items;
      hide ItemBytes;
      hide ReleaseNodes;
      ghost var N, s := nodes, FreshConsumer(true);
      ReleaseIsShed(N, c, s, from);
      released := 0;
      var i := from;
      assert Items(N[from..], c) == Items(N, c) by { SkipUnmarked(N, c, from); }
      while i < |nodes|
        invariant from <= i <= |nodes| == |N|
        invariant nodes == ShedNodes(N, i, c, s)
        invariant released + ItemBytes(Items(N[i..], c)) == ItemBytes(Items(N, c))
      {
        BytesHere(N, i, c);
        ShedVisit(N, i, c, s);
        var node := nodes[i];
        if c in node.pending {
          nodes := nodes[i := node.(pending := node.pending - {c})];
          released := released + |node.payload|;
        } else {
          UnmarkedStays(node, c, s);
        }
        i := i + 1;
      }
      ItemsAtEnd(N, i, c);
      assert ItemBytes([]) == 0 by { NoItems(); }
    }

    /** The first pending place after the node numbered seqNo. */
    method NextAfter(c: Consumer, seqNo: nat, ghost at: nat) returns (r: nat)
      requires Shape(nodes, nextSeq) && at < |nodes| && nodes[at].seqNo == seqNo
      ensures at < r <= |nodes| && forall i :: at < i < r ==> c !in nodes[i].pending
      ensures FirstPending(After(nodes, seqNo), c) == if r < |nodes| then Some(nodes[r].seqNo) else None
    {
      var k := Locate(seqNo);
      InOrder(nodes, nextSeq, k, at);
      AfterPlace(nodes, nextSeq, at);
      r := NextPending(c, k + 1);
    }

    /** Stores a consumer's new state and reclaims what nobody waits for. */
    method Settle(c: Consumer, s: ConsumerState) returns (freed: int)
      modifies this`nodes, this`resident, this`live, this`history
      ensures View() == Swept(old(View()).With(c, s))
      ensures freed == old(resident) - resident
    {
      hide NodeBytes;
      hide Reclaim;
      Put(c, s);
      freed := Sweep();
    }

    /** The batch in flight is finished: its marks go, and the cursor moves past it. */
    method AckLocked(c: Consumer) returns (s: ConsumerState, r: nat)
      requires Shape(nodes, nextSeq) && Anchored(Items(nodes, c), State(c)) && State(c).inFlight.Some?
      modifies this`nodes
      ensures nodes == AckNodes(old(nodes), c, State(c).inFlight.value)
      ensures s == State(c).(inFlight := None, completedSeq := Max(State(c).completedSeq, State(c).inFlight.value.last),
                             next := FirstPending(After(nodes, State(c).inFlight.value.last), c))
      ensures r <= |nodes| && forall i :: 0 <= i < r ==> c !in nodes[i].pending
    {
      hide Shape;
      hide Anchored;
      hide Items;
      hide AckNodes;
      hide FirstPending;
      hide After;
      s := State(c);
      var span := s.inFlight.value;
      ghost var first, last := FlightPlaces(nodes, c, s, nextSeq);
      AnchoredFlight(nodes, c, s);
      AckedBeyond(nodes, c, s, nextSeq, last);
      var completed := Acknowledge(c, span, first, last);
      r := NextAfter(c, span.last, last);
      s := s.(inFlight := None, completedSeq := completed, next := if r < |nodes| then Some(nodes[r].seqNo) else None);
    }

    /** completeBatch. Returns the bytes that go back to the shared budget. */
    method CompleteBatchLocked(c: Consumer, batch: Batch, failed: bool, failurePending: bool) returns (freed: int)
      requires Shape(nodes, nextSeq) && Anchored(Items(nodes, c), State(c))
      modifies this`nodes, this`resident, this`live, this`history
      ensures View() == CompleteBatch(old(View()), c, batch, failed, failurePending)
      ensures freed == old(resident) - resident
    {
      hide Shape;
      hide Anchored;
      hide Items;
      hide ItemBytes;
      hide AckNodes;
      hide ReleaseNodes;
      hide FirstPending;
      hide After;
      hide Swept;
      if State(c).inFlight != Some(batch.span) {
        return 0;
      }
      var s, r := AckLocked(c);
      if failed {
        var released := ReleaseFrom(c, r);
        s := s.(droppedBytes := s.droppedBytes + |batch.payload| + released,
                gapCount := if s.pendingGapBytes == 0 then s.gapCount + 1 else s.gapCount,
                unavailable := Some(OutputError(s.epoch + 1, |batch.payload| + s.pendingGapBytes + released)),
                pendingGapBytes := 0, pendingGapSeq := 0,
                failurePending := failurePending, active := false, next := None);
      }
      freed := Settle(c, s);
    }

    /** The place of c's cursor, or the end of the list. */
    method CursorIndex(c: Consumer) returns (r: nat)
      requires Shape(nodes, nextSeq) && Anchored(Items(nodes, c), State(c)) && State(c).inFlight.None?
      ensures r <= |nodes| && forall i :: 0 <= i < r ==> c !in nodes[i].pending
    {
      hide Items;
      hide FirstPending;
      FirstPendingIsFirstItem(nodes, c);
      ghost var f := FirstPlace(nodes, c);
      if State(c).next.None? {
        return |nodes|;
      }
      r := Locate(State(c).next.value);
      CursorPlace(nodes, c, nextSeq, r);
    }

    /** completeGap. Returns the bytes that go back to the shared budget. */
    method CompleteGapLocked(c: Consumer, gap: Gap, failed: bool, failurePending: bool) returns (freed: int)
      requires Shape(nodes, nextSeq) && Anchored(Items(nodes, c), State(c)) && State(c).inFlight.None?
      modifies this`nodes, this`resident, this`live, this`history
      ensures View() == CompleteGap(old(View()), c, gap, failed, failurePending)
      ensures freed == old(resident) - resident
    {
      hide Shape;
      hide Anchored;
      hide Items;
      hide ItemBytes;
      hide ReleaseNodes;
      hide Swept;
      var s := State(c);
      if s.gapInFlight != Some(gap) {
        return 0;
      }
      s := s.(gapInFlight := None);
      if failed {
        var from := CursorIndex(c);
        var released := ReleaseFrom(c, from);
        s := s.(droppedBytes := s.droppedBytes + released,
                unavailable := Some(OutputError(gap.epoch, gap.droppedBytes + s.pendingGapBytes + released)),
                pendingGapBytes := 0, pendingGapSeq := 0,
                failurePending := failurePending, active := false, next := None);
      } else {
        s := s.(epoch := gap.epoch,
                completedSeq := if gap.throughSeq > s.completedSeq then gap.throughSeq else s.completedSeq);
      }
      freed := Settle(c, s);
    }

    method CloseConsumer(c: Consumer)
      modifies this`nodes, this`live, this`history
      ensures View() == CloseFor(old(View()), c)
    {
      hide AddGaps;
      hide ShedItems;
      hide FirstPending;
      if State(c).active {
        MarkGone(c);
        Put(c, State(c).(next := None, active := false));
      }
    }

    method CloseLocked() returns (freed: int)
      modifies this`nodes, this`resident, this`closed, this`live, this`history
      ensures View() == Close(old(View()))
      ensures freed == old(resident) - resident
    {
      hide CloseFor;
      hide NodeBytes;
      hide Reclaim;
      if closed {
        return 0;
      }
      closed := true;
      CloseConsumer(Live);
      CloseConsumer(History);
      freed := Sweep();
    }

    // ---------------------------------------------------------------- critical sections

    /** What the sections need of the invariant. */
    lemma Facts(c: Consumer)
      requires Valid()
      ensures BufferInv(View()) && Anchored(Items(nodes, c), State(c)) && FlightFirst(nodes, c, State(c))
    {
      hide Items;
      hide ConsumerInv;
      hide Anchored;
      hide FlightFirst;
      assert Tracks(world, c);
      InvAnchors(Items(nodes, c), nextSeq, closed, State(c), world.T(c));
      AnchoredFlight(nodes, c, State(c));
    }

    /** The writer's capacity check: with room, the chunk is admitted. */
    method Admit(payload: Payload) returns (admitted: bool)
      requires Valid()
      modifies this
      ensures Valid() && world == Step(old(world), Action.Admit(payload))
      ensures admitted <==> old(writer).None? && payload != [] && OutputEffects.FitsAt(old(View()), payload)
      ensures writer == if admitted then Some(payload) else old(writer)
    {
      hide Inv;
      hide Append;
      StepKeeps(world, Action.Admit(payload));
      admitted := writer.None? && payload != [] && !closed && !sealed && (live.active || history.active)
                  && resident + |payload| <= capacity;
      if admitted { writer := Some(payload); }
      world := Step(world, Action.Admit(payload));
    }

    /** One eviction pass for the shared budget: dropForAggregate. */
    method Evict(required: int) returns (freed: int)
      requires Valid()
      modifies this
      ensures Valid() && world == Step(old(world), Action.Evict(required))
      ensures freed == old(resident) - resident
      ensures freed == Released(old(world), Action.Evict(required))
    {
      hide Inv;
      hide DropOldest;
      hide BufferInv;
      hide FlightFirst;
      Facts(Live);
      Facts(History);
      StepKeeps(world, Action.Evict(required));
      ReleasedIsExact(world, Action.Evict(required));
      hide Released;
      freed := 0;
      if policy == Drop { freed := DropOldestLocked(required); }
      world := Step(world, Action.Evict(required));
    }

    /** An overfull drop-policy buffer makes room, or refuses the chunk when nothing could go. */
    method Squeeze(payload: Payload) returns (freed: int)
      requires Valid()
      modifies this
      ensures Valid() && world == Step(old(world), Action.Squeeze(payload))
      ensures freed == old(resident) - resident
      ensures freed == Released(old(world), Action.Squeeze(payload))
    {
      hide Inv;
      hide DropOldest;
      hide DropIncoming;
      hide BufferInv;
      hide FlightFirst;
      hide Append;
      Facts(Live);
      Facts(History);
      StepKeeps(world, Action.Squeeze(payload));
      ReleasedIsExact(world, Action.Squeeze(payload));
      hide Released;
      freed := 0;
      if writer.None? && payload != [] && !closed && !sealed && (live.active || history.active)
         && resident + |payload| > capacity && policy == Drop {
        Shrinks(world, |payload|);
        freed := DropOldestLocked(|payload|);
        if freed == 0 {
          freed := DropIncomingLocked(|payload|);
        }
      }
      world := Step(world, Action.Squeeze(payload));
    }

    /** The chunk is numbered and listed. Returns what goes back to the shared budget. */
    method Commit() returns (released: int)
      requires Valid() && writer.Some?
      modifies this
      ensures Valid() && world == Step(old(world), Action.Commit)
      ensures released == old(resident) + |old(writer.value)| - resident
      ensures released == Released(old(world), Action.Commit)
      ensures writer == None
      ensures !old(closed) && !old(sealed) ==>
                && world.written == old(world.written) + [old(writer.value)] && nextSeq == old(nextSeq) + 1
                && OutputEffects.Gets(old(View()), View(), Live, old(writer.value))
                && OutputEffects.Gets(old(View()), View(), History, old(writer.value))
    {
      if !closed && !sealed {
        OutputEffects.CommitLists(world, Live);
        OutputEffects.CommitLists(world, History);
      }
      hide OutputEffects.Gets;
      hide Inv;
      hide Append;
      hide Anchored;
      hide BufferInv;
      Facts(Live);
      Facts(History);
      StepKeeps(world, Action.Commit);
      ReleasedIsExact(world, Action.Commit);
      hide Released;
      released := |writer.value|;
      if !closed && !sealed {
        released := AppendLocked(writer.value);
      }
      writer := None;
      world := Step(world, Action.Commit);
    }

    /** The shared budget refused the chunk. */
    method Abandon() returns (freed: int)
      requires Valid() && writer.Some?
      modifies this
      ensures Valid() && world == Step(old(world), Action.Abandon)
      ensures freed == old(resident) - resident
      ensures freed == Released(old(world), Action.Abandon)
      ensures writer == None
      ensures !old(closed) && !old(sealed) && policy == Drop ==>
                world.written == old(world.written) + [old(writer.value)] && nextSeq == old(nextSeq) + 1
    {
      hide Inv;
      hide DropIncoming;
      hide Append;
      if !closed && !sealed && policy == Drop { OutputEffects.AbandonNumbers(world); }
      StepKeeps(world, Action.Abandon);
      ReleasedIsExact(world, Action.Abandon);
      hide Released;
      freed := 0;
      if !closed && !sealed && policy == Drop {
        freed := DropIncomingLocked(|writer.value|);
      }
      writer := None;
      world := Step(world, Action.Abandon);
    }

    /** A consumer's worker starts, once. */
    method Begin(c: Consumer) returns (running: bool)
      requires Valid()
      modifies this
      ensures Valid() && (running ==> world == Step(old(world), Action.Begin(c)))
      ensures !running ==> world == old(world)
      ensures running <==> !old(State(c)).started && old(State(c)).active && !old(closed)
      ensures running ==> State(c) == old(State(c)).(started := true)
    {
      hide Inv;
      StepKeeps(world, Action.Begin(c));
      running := !State(c).started && State(c).active && !closed;
      if running {
        Put(c, State(c).(started := true));
        world := Step(world, Action.Begin(c));
      }
    }

    /** What a worker with nothing in hand takes next. */
    method Next(c: Consumer) returns (r: Fetched)
      requires Valid() && State(c).started && world.T(c).held.Idle?
      modifies this
      ensures Valid() && world == Step(old(world), Action.Take(c)) && r == Fetch(old(View()), c)
    {
      hide Inv;
      hide Fetch;
      hide FetchState;
      hide Anchored;
      hide Shape;
      Facts(c);
      HandsFree(world, c);
      FetchKept(world.b, c);
      StepKeeps(world, Action.Take(c));
      r := TakeLocked(c);
      world := Step(world, Action.Take(c));
    }

    /** A worker finished the batch it holds. */
    method FinishBatch(c: Consumer, batch: Batch, failed: bool, failurePending: bool) returns (freed: int)
      requires Valid() && world.T(c).held == HoldsBatch(batch)
      modifies this
      ensures Valid() && world == Step(old(world), Action.FinishBatch(c, failed, failurePending))
      ensures freed == old(resident) - resident
      ensures freed == Released(old(world), Action.FinishBatch(c, failed, failurePending))
    {
      hide Inv;
      hide CompleteBatch;
      hide Anchored;
      hide Shape;
      Facts(c);
      StepKeeps(world, Action.FinishBatch(c, failed, failurePending));
      ReleasedIsExact(world, Action.FinishBatch(c, failed, failurePending));
      hide Released;
      freed := CompleteBatchLocked(c, batch, failed, failurePending);
      world := Step(world, Action.FinishBatch(c, failed, failurePending));
    }

    /** A worker handled the gap it holds. */
    method FinishGap(c: Consumer, gap: Gap, failed: bool, failurePending: bool) returns (freed: int)
      requires Valid() && world.T(c).held == HoldsGap(gap)
      modifies this
      ensures Valid() && world == Step(old(world), Action.FinishGap(c, failed, failurePending))
      ensures freed == old(resident) - resident
      ensures freed == Released(old(world), Action.FinishGap(c, failed, failurePending))
    {
      hide Inv;
      hide CompleteGap;
      hide Anchored;
      hide Shape;
      Facts(c);
      HandsFree(world, c);
      StepKeeps(world, Action.FinishGap(c, failed, failurePending));
      ReleasedIsExact(world, Action.FinishGap(c, failed, failurePending));
      hide Released;
      freed := CompleteGapLocked(c, gap, failed, failurePending);
      world := Step(world, Action.FinishGap(c, failed, failurePending));
    }

    method CompleteFailureHandling(c: Consumer)
      requires Valid()
      modifies this
      ensures Valid() && world == Step(old(world), Action.FailureHandled(c))
    {
      hide Inv;
      StepKeeps(world, Action.FailureHandled(c));
      Put(c, State(c).(failurePending := false));
      world := Step(world, Action.FailureHandled(c));
    }

    method Seal()
      requires Valid()
      modifies this
      ensures Valid() && world == Step(old(world), Action.Seal)
    {
      hide Inv;
      StepKeeps(world, Action.Seal);
      sealed := true;
      world := Step(world, Action.Seal);
    }

    method Shut() returns (freed: int)
      requires Valid()
      modifies this
      ensures Valid() && world == Step(old(world), Action.CloseAll)
      ensures freed == old(resident) - resident
      ensures freed == Released(old(world), Action.CloseAll)
    {
      hide Inv;
      hide Close;
      StepKeeps(world, Action.CloseAll);
      ReleasedIsExact(world, Action.CloseAll);
      hide Released;
      freed := CloseLocked();
      world := Step(world, Action.CloseAll);
    }
  }

  // ------------------------------------------------------------------ one write, many chunks

  function Concat(chunks: seq<Payload>): Payload {
    if chunks == [] then [] else Concat(chunks[..|chunks| - 1]) + chunks[|chunks| - 1]
  }

  /** Write cuts its payload into chunks that each fit a batch and the buffer. */
  method CutPayload(payload: Payload, capacity: nat) returns (chunks: seq<Payload>)
    requires capacity > 0
    ensures Concat(chunks) == payload
    ensures forall i :: 0 <= i < |chunks| ==> 0 < |chunks[i]| <= CHUNK_BYTES && |chunks[i]| <= capacity
  {
    chunks := [];
    var rest := payload;
    while rest != []
      invariant Concat(chunks) + rest == payload
      invariant forall i :: 0 <= i < |chunks| ==> 0 < |chunks[i]| <= CHUNK_BYTES && |chunks[i]| <= capacity
      decreases |rest|
    {
      var size := |rest|;
      if size > CHUNK_BYTES { size := CHUNK_BYTES; }
      if size > capacity { size := capacity; }
      assert rest == rest[..size] + rest[size..];
      assert (chunks + [rest[..size]])[..|chunks|] == chunks;
      chunks := chunks + [rest[..size]];
      rest := rest[size..];
    }
  }
}
