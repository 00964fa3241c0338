/** What the sections achieve, beside keeping the account: room is made, work is offered, batches are full. */
module OutputProgress {
  import opened OutputModel
  import opened OutputLemmas
  import opened OutputProofs
  import opened OutputRuns
  import opened OutputTheorems
  import opened OutputLoops

  // ------------------------------------------------------------------ making room

  /** The bytes of the nodes among the first k that no consumer has in flight. */
  function DrainedBytes(nodes: seq<Node>, k: nat, live: ConsumerState, history: ConsumerState): nat {
    if nodes == [] || k == 0 then 0
    else (if Drained(nodes[0], live, history) then |nodes[0].payload| else 0) + DrainedBytes(nodes[1..], k - 1, live, history)
  }

  /** The visits stop as soon as enough is drained, and not before unless the list ends. */
  lemma {:induction false} StopsInTime(nodes: seq<Node>, live: ConsumerState, history: ConsumerState, required: int)
    ensures var k := DropCount(nodes, live, history, required);
            && (k < |nodes| ==> DrainedBytes(nodes, k, live, history) >= required)
            && (k > 0 ==> DrainedBytes(nodes, k - 1, live, history) < required)
  {
    if nodes != [] && required > 0 {
      var left := if Drained(nodes[0], live, history) then required - |nodes[0].payload| else required;
      StopsInTime(nodes[1..], live, history, left);
      var k := DropCount(nodes[1..], live, history, left);
      assert DropCount(nodes, live, history, required) == 1 + k;
    }
  }

  lemma ShedBothCons(nodes: seq<Node>, k: nat, live: ConsumerState, history: ConsumerState)
    requires nodes != [] && k > 0
    ensures ShedBoth(nodes, k, live, history)
            == [ShedNode(ShedNode(nodes[0], Live, live), History, history)] + ShedBoth(nodes[1..], k - 1, live, history)
  {
  }

  lemma ReclaimCons(n: Node, rest: seq<Node>)
    ensures Reclaim([n] + rest) == (if n.pending != {} then [n] else []) + Reclaim(rest)
    ensures NodeBytes(Reclaim([n] + rest)) == (if n.pending != {} then |n.payload| else 0) + NodeBytes(Reclaim(rest))
  {
    assert ([n] + rest)[1..] == rest;
    if n.pending != {} {
      assert ([n] + Reclaim(rest))[1..] == Reclaim(rest);
    } else {
      assert [] + Reclaim(rest) == Reclaim(rest);
    }
  }

  /** What is reclaimed after the visits is what they drained. */
  lemma {:induction false} FreedIsDrained(nodes: seq<Node>, k: nat, live: ConsumerState, history: ConsumerState)
    requires k <= |nodes| && forall i :: 0 <= i < |nodes| ==> nodes[i].pending != {}
    ensures NodeBytes(nodes) - NodeBytes(Reclaim(ShedBoth(nodes, k, live, history))) == DrainedBytes(nodes, k, live, history)
  {
    if k == 0 {
      assert ShedBoth(nodes, k, live, history) == nodes;
      ReclaimSettled(nodes);
    } else {
      hide ShedBoth;
      var head := ShedNode(ShedNode(nodes[0], Live, live), History, history);
      FreedIsDrained(nodes[1..], k - 1, live, history);
      ShedBothCons(nodes, k, live, history);
      BothVisited(nodes[0], live, history);
      ReclaimCons(head, ShedBoth(nodes[1..], k - 1, live, history));
    }
  }

  /** Someone has this node in flight. */
  predicate Flying(b: Buffer, n: Node) {
    (Live in n.pending && InFlight(b.live, n.seqNo)) || (History in n.pending && InFlight(b.history, n.seqNo))
  }

  lemma KeptFlies(nodes: seq<Node>, live: ConsumerState, history: ConsumerState, n: Node)
    requires n in Reclaim(ShedBoth(nodes, |nodes|, live, history))
    ensures (Live in n.pending && InFlight(live, n.seqNo)) || (History in n.pending && InFlight(history, n.seqNo))
  {
    var shed := ShedBoth(nodes, |nodes|, live, history);
    ReclaimSubset(shed);
    var i :| 0 <= i < |shed| && shed[i] == n;
    BothVisited(nodes[i], live, history);
  }

  /** dropOldestLocked frees what is required, or leaves only batches in flight; and it stops once it has enough. */
  lemma DropsEnough(b: Buffer, required: int)
    requires BufferInv(b)
    ensures var d := DropOldest(b, required);
            b.resident - d.resident >= required || forall n :: n in d.nodes ==> Flying(b, n)
    ensures var k := DropCount(b.nodes, b.live, b.history, required);
            && b.resident - DropOldest(b, required).resident == DrainedBytes(b.nodes, k, b.live, b.history)
            && (k > 0 ==> DrainedBytes(b.nodes, k - 1, b.live, b.history) < required)
  {
    hide DropCount;
    hide DrainedBytes;
    hide ShedState;
    hide Reclaim;
    hide NodeBytes;
    hide Shape;
    var k := DropCount(b.nodes, b.live, b.history, required);
    StopsInTime(b.nodes, b.live, b.history, required);
    FreedIsDrained(b.nodes, k, b.live, b.history);
    var d := DropOldest(b, required);
    SameChunksBytes(ShedBoth(b.nodes, k, b.live, b.history), b.nodes);
    assert d.nodes == Reclaim(ShedBoth(b.nodes, k, b.live, b.history));
    if k == |b.nodes| {
      forall n | n in d.nodes ensures Flying(b, n) { KeptFlies(b.nodes, b.live, b.history, n); }
    }
  }

  // ------------------------------------------------------------------ batches

  lemma {:induction false} MoreFits(items: seq<Item>, total: nat)
    ensures var m := BatchMore(items, total);
            && (m > 0 ==> total + ItemBytes(items[..m]) <= CHUNK_BYTES)
            && (m < |items| ==> total + ItemBytes(items[..m]) + |items[m].payload| > CHUNK_BYTES)
  {
    if items != [] && total + |items[0].payload| <= CHUNK_BYTES {
      MoreFits(items[1..], total + |items[0].payload|);
      var m := BatchMore(items[1..], total + |items[0].payload|);
      assert items[..m + 1][1..] == items[1..][..m];
      assert BatchMore(items, total) == m + 1;
      assert items[..m + 1][0] == items[0];
      if m == 0 { assert ItemBytes(items[1..][..0]) == 0; }
    } else {
      assert items[..0] == [];
    }
  }

  /** A batch of several chunks stays within 16 KiB, and the next queued chunk would not have fitted. */
  lemma BatchFits(b: Buffer, c: Consumer)
    requires Fetch(b, c).TakeBatch?
    ensures var queue, payload := Items(b.nodes, c), Fetch(b, c).batch.payload;
            queue != [] &&
            var m := BatchCount(queue);
            && |payload| == ItemBytes(queue[..m])
            && (m > 1 ==> |payload| <= CHUNK_BYTES)
            && (m < |queue| ==> |payload| + |queue[m].payload| > CHUNK_BYTES)
  {
    hide Items;
    hide Join;
    hide BatchMore;
    var queue := Items(b.nodes, c);
    var m := BatchCount(queue);
    JoinLength(queue[..m]);
    MoreFits(queue[1..], |queue[0].payload|);
    assert queue[..m][1..] == queue[1..][..m - 1];
  }

  // ------------------------------------------------------------------ work is offered, flushes end

  /** A worker with free hands whose log is behind the stream is handed something. */
  lemma WorkIsOffered(w: World, c: Consumer)
    requires Reachable(w) && w.T(c).held.Idle? && w.b.State(c).active
    requires Reached(w.T(c).log) < |w.T(c).stream|
    ensures Fetch(w.b, c).TakeBatch? || Fetch(w.b, c).TakeGap?
  {
    hide Reachable;
    hide Inv;
    ReachableInv(w);
    InvTracks(w, c);
    OfferedFor(Items(w.b.nodes, c), w.b, c, w.T(c));
  }

  lemma OfferedFor(items: seq<Item>, b: Buffer, c: Consumer, t: Track)
    requires items == Items(b.nodes, c) && ConsumerInv(items, b.nextSeq, b.closed, b.State(c), t)
    requires t.held.Idle? && b.State(c).active && Reached(t.log) < |t.stream|
    ensures Fetch(b, c).TakeBatch? || Fetch(b, c).TakeGap?
  {
    hide Items;
    hide Tiles;
    hide Join;
    hide ItemBytes;
    hide Gaps;
    hide SkippedBytes;
    hide BatchCount;
    if b.State(c).pendingGapBytes == 0 {
      assert items == Slice(t.stream, Reached(t.log), |t.stream|);
    }
  }

  /** A flush of an active consumer ends once its log covers the target. */
  lemma FlushEnds(w: World, c: Consumer, target: nat)
    requires Reachable(w) && w.b.State(c).active
    ensures FlushCheck(w.b, c, target) == FlushDone <==> Reached(w.T(c).log) >= target
  {
    hide Reachable;
    hide Inv;
    ReachableInv(w);
    LogFacts(w, c);
    ActiveAvailable(w, c);
  }

  lemma ActiveAvailable(w: World, c: Consumer)
    requires Inv(w) && w.b.State(c).active
    ensures w.b.State(c).unavailable.None?
  {
    hide Items;
    hide Tiles;
    hide Inv;
    InvTracks(w, c);
  }
}
