/** What one more visited node adds, for each loop over the output buffer's list. */
module OutputLoops {
  import opened OutputModel
  import opened OutputLemmas
  import opened OutputProofs
  import opened OutputRuns

  // ------------------------------------------------------------------ walks

  lemma {:induction false} FirstPendingAt(nodes: seq<Node>, c: Consumer, from: nat, r: nat)
    requires from <= r <= |nodes|
    requires forall i :: from <= i < r ==> c !in nodes[i].pending
    requires r < |nodes| ==> c in nodes[r].pending
    ensures FirstPending(nodes[from..], c) == if r < |nodes| then Some(nodes[r].seqNo) else None
    ensures Items(nodes[from..], c) == Items(nodes[r..], c)
    decreases r - from
  {
    if from < r {
      FirstPendingAt(nodes, c, from + 1, r);
      assert nodes[from..][1..] == nodes[from + 1..];
    }
  }

  // ------------------------------------------------------------------ shedding

  /** What one visited node does to the consumer that sheds. */
  lemma ShedVisit(nodes: seq<Node>, k: nat, c: Consumer, s: ConsumerState)
    requires k < |nodes|
    ensures ShedNodes(nodes, k + 1, c, s) == ShedNodes(nodes, k, c, s)[k := ShedNode(nodes[k], c, s)]
    ensures ShedNodes(nodes, k, c, s)[k] == nodes[k]
    ensures AddGaps(s, ShedItems(nodes, k + 1, c, s)) ==
            if c in nodes[k].pending && !InFlight(s, nodes[k].seqNo)
            then AddGap(AddGaps(s, ShedItems(nodes, k, c, s)), nodes[k].seqNo, |nodes[k].payload|)
            else AddGaps(s, ShedItems(nodes, k, c, s))
  {
    hide ShedItems;
    hide AddGaps;
    var gone := ShedItems(nodes, k, c, s);
    ShedItemsSnoc(nodes, k, c, s);
    AddGapsSnoc(s, gone, Item(nodes[k].seqNo, nodes[k].payload));
    assert gone + [] == gone;
  }

  lemma {:induction false} AddGapsSnoc(s: ConsumerState, items: seq<Item>, it: Item)
    ensures AddGaps(s, items + [it]) == AddGap(AddGaps(s, items), it.seqNo, |it.payload|)
    decreases |items|
  {
    if items == [] {
      assert [it][1..] == [];
      assert items + [it] == [it];
    } else {
      assert (items + [it])[1..] == items[1..] + [it];
      AddGapsSnoc(AddGap(s, items[0].seqNo, |items[0].payload|), items[1..], it);
    }
  }

  /** Widening a gap moves no cursor. */
  lemma {:induction false} AddGapsKeeps(s: ConsumerState, items: seq<Item>)
    ensures AddGaps(s, items).inFlight == s.inFlight && AddGaps(s, items).next == s.next
    decreases |items|
  {
    if items != [] {
      AddGapsKeeps(AddGap(s, items[0].seqNo, |items[0].payload|), items[1..]);
    }
  }

  lemma {:induction false} ShedItemsSnoc(nodes: seq<Node>, k: nat, c: Consumer, s: ConsumerState)
    requires k < |nodes|
    ensures ShedItems(nodes, k + 1, c, s)
            == ShedItems(nodes, k, c, s) + (if InFlight(s, nodes[k].seqNo) then [] else Mine(nodes[k], c))
  {
    if k > 0 {
      ShedItemsSnoc(nodes[1..], k - 1, c, s);
    }
  }

  lemma ShedNothing(nodes: seq<Node>, c: Consumer, s: ConsumerState)
    ensures ShedNodes(nodes, 0, c, s) == nodes && ShedItems(nodes, 0, c, s) == [] && AddGaps(s, []) == s
  {
  }

  lemma UnmarkedStays(n: Node, c: Consumer, s: ConsumerState)
    requires c !in n.pending || InFlight(s, n.seqNo)
    ensures ShedNode(n, c, s) == n
  {
    if c !in n.pending { assert n.pending - {c} == n.pending; }
  }

  // ------------------------------------------------------------------ reclaiming

  lemma ReclaimKeeps(nodes: seq<Node>, i: nat)
    requires i < |nodes| && nodes[i].pending != {}
    ensures nodes[..i] + Reclaim(nodes[i..]) == nodes[..i + 1] + Reclaim(nodes[i + 1..])
  {
    assert nodes[i..][1..] == nodes[i + 1..];
    assert Reclaim(nodes[i..]) == [nodes[i]] + Reclaim(nodes[i + 1..]);
    assert nodes[..i + 1] == nodes[..i] + [nodes[i]];
  }

  lemma ReclaimCuts(nodes: seq<Node>, i: nat, cut: seq<Node>)
    requires i < |nodes| && nodes[i].pending == {} && cut == nodes[..i] + nodes[i + 1..]
    ensures nodes[..i] + Reclaim(nodes[i..]) == cut[..i] + Reclaim(cut[i..])
    ensures NodeBytes(cut) == NodeBytes(nodes) - |nodes[i].payload|
  {
    assert cut[..i] == nodes[..i] && cut[i..] == nodes[i + 1..];
    var rest := nodes[i..];
    assert rest[1..] == nodes[i + 1..];
    assert Reclaim(rest) == Reclaim(nodes[i + 1..]);
    hide Reclaim;
    assert NodeBytes(rest) == |nodes[i].payload| + NodeBytes(nodes[i + 1..]);
    hide NodeBytes;
    assert nodes == nodes[..i] + rest;
    NodeBytesConcat(nodes[..i], rest);
    NodeBytesConcat(nodes[..i], nodes[i + 1..]);
  }

  // ------------------------------------------------------------------ dropping the oldest

  /** No listed node pending for c comes before its batch in flight. */
  ghost predicate FlightFirst(nodes: seq<Node>, c: Consumer, s: ConsumerState) {
    s.inFlight.Some? ==>
      forall i :: 0 <= i < |nodes| && c in nodes[i].pending ==> s.inFlight.value.first <= nodes[i].seqNo
  }

  /** What visiting node i does to one consumer's state in dropOldestLocked. */
  function Visited(nodes: seq<Node>, i: nat, c: Consumer, s: ConsumerState): ConsumerState
    requires i < |nodes|
  {
    if c !in nodes[i].pending || InFlight(s, nodes[i].seqNo) then s
    else
      var t := AddGap(s, nodes[i].seqNo, |nodes[i].payload|);
      if t.next == Some(nodes[i].seqNo) then t.(next := FirstPending(nodes[i + 1..], c)) else t
  }

  lemma {:induction false} ShedFrom(nodes: seq<Node>, k: nat, c: Consumer, s: ConsumerState, q: nat) returns (j: nat)
    requires k <= |nodes| && Mentions(ShedItems(nodes, k, c, s), q)
    ensures j < k && nodes[j].seqNo == q && c in nodes[j].pending && !InFlight(s, q)
  {
    var gone := ShedItems(nodes, k, c, s);
    var i :| 0 <= i < |gone| && gone[i].seqNo == q;
    var first := if InFlight(s, nodes[0].seqNo) then [] else Mine(nodes[0], c);
    if i < |first| {
      j := 0;
    } else {
      var rest := ShedItems(nodes[1..], k - 1, c, s);
      assert gone == first + rest && rest[i - |first|] == gone[i];
      j := ShedFrom(nodes[1..], k - 1, c, s, q);
      j := j + 1;
    }
  }

  /** A batch in flight is met before anything is shed. */
  lemma NothingShedYet(nodes: seq<Node>, k: nat, c: Consumer, s: ConsumerState, n: nat)
    requires Shape(nodes, n) && FlightFirst(nodes, c, s)
    requires k < |nodes| && c in nodes[k].pending && InFlight(s, nodes[k].seqNo)
    ensures forall q :: !Mentions(ShedItems(nodes, k, c, s), q)
  {
    hide ShedItems;
    forall q ensures !Mentions(ShedItems(nodes, k, c, s), q) {
      if Mentions(ShedItems(nodes, k, c, s), q) {
        var j := ShedFrom(nodes, k, c, s, q);
        assert false;
      }
    }
  }

  lemma MentionsSnoc(items: seq<Item>, it: Item, q: nat)
    ensures Mentions(items + [it], q) <==> Mentions(items, q) || it.seqNo == q
  {
    assert (items + [it])[|items|] == it;
    if Mentions(items, q) {
      var i :| 0 <= i < |items| && items[i].seqNo == q;
      assert (items + [it])[i].seqNo == q;
    }
  }

  /** Shedding one node more is visiting that node. */
  lemma VisitSheds(nodes: seq<Node>, k: nat, c: Consumer, s: ConsumerState, n: nat)
    requires Shape(nodes, n) && FlightFirst(nodes, c, s) && k < |nodes|
    ensures ShedState(nodes, k + 1, c, s) == Visited(nodes, k, c, ShedState(nodes, k, c, s))
    ensures ShedState(nodes, k, c, s).inFlight == s.inFlight
  {
    hide ShedItems;
    hide AddGaps;
    hide Mentions;
    var gone, node := ShedItems(nodes, k, c, s), nodes[k];
    assert nodes[k..][0] == node && nodes[k..][1..] == nodes[k + 1..];
    ShedVisit(nodes, k, c, s);
    ShedItemsSnoc(nodes, k, c, s);
    AddGapsKeeps(s, gone);
    assert gone + [] == gone;
    if c in node.pending && InFlight(s, node.seqNo) {
      NothingShedYet(nodes, k, c, s, n);
    } else if c in node.pending && s.next.Some? {
      MentionsSnoc(gone, Item(node.seqNo, node.payload), s.next.value);
    }
  }

  /** The other consumer's marks do not change what c sheds. */
  lemma {:induction false} ShedApart(nodes: seq<Node>, k: nat, c: Consumer, s: ConsumerState, t: ConsumerState)
    requires k <= |nodes|
    ensures var shed := ShedNodes(nodes, k, Other(c), t); ShedItems(shed, k, c, s) == ShedItems(nodes, k, c, s)
  {
    if k > 0 {
      ShedApart(nodes[1..], k - 1, c, s, t);
      assert ShedNodes(nodes, k, Other(c), t)[1..] == ShedNodes(nodes[1..], k - 1, Other(c), t);
    }
  }

  lemma ShedStateApart(nodes: seq<Node>, k: nat, c: Consumer, s: ConsumerState, t: ConsumerState)
    requires k <= |nodes|
    ensures ShedState(ShedNodes(nodes, k, Other(c), t), k, c, s) == ShedState(nodes, k, c, s)
  {
    hide ShedItems;
    hide AddGaps;
    hide FirstPending;
    ShedApart(nodes, k, c, s, t);
    assert ShedNodes(nodes, k, Other(c), t)[k..] == nodes[k..];
  }

  /** A visit looks only at the visited node and what follows it. */
  lemma VisitedLocally(a: seq<Node>, b: seq<Node>, i: nat, c: Consumer, s: ConsumerState)
    requires i < |a| && i < |b| && a[i + 1..] == b[i + 1..]
    requires a[i].seqNo == b[i].seqNo && a[i].payload == b[i].payload
    requires c in a[i].pending <==> c in b[i].pending
    ensures Visited(a, i, c, s) == Visited(b, i, c, s)
  {
    hide FirstPending;
  }

  /** The list after both consumers visited its first k nodes. */
  function ShedBoth(nodes: seq<Node>, k: nat, live: ConsumerState, history: ConsumerState): (r: seq<Node>)
    ensures |r| == |nodes|
    ensures forall i :: 0 <= i < |nodes| ==>
              r[i] == if i < k then ShedNode(ShedNode(nodes[i], Live, live), History, history) else nodes[i]
  {
    ShedNodes(ShedNodes(nodes, k, Live, live), k, History, history)
  }

  /** A node both consumers visited is finished exactly when neither has it in flight. */
  lemma BothVisited(n: Node, live: ConsumerState, history: ConsumerState)
    ensures ShedNode(ShedNode(n, Live, live), History, history).pending == {} <==> Drained(n, live, history)
  {
    var p := ShedNode(ShedNode(n, Live, live), History, history).pending;
    assert p == {} <==> Live !in p && History !in p by {
      if p != {} {
        var c :| c in p;
        assert c.Live? || c.History?;
      }
    }
  }

  lemma StartVisits(nodes: seq<Node>, live: ConsumerState, history: ConsumerState)
    ensures ShedBoth(nodes, 0, live, history) == nodes
    ensures ShedState(nodes, 0, Live, live) == live && ShedState(nodes, 0, History, history) == history
    ensures nodes[0..] == nodes
  {
  }

  lemma DropCountEnd(nodes: seq<Node>, live: ConsumerState, history: ConsumerState, required: int)
    requires nodes == [] || required <= 0
    ensures DropCount(nodes, live, history, required) == 0
  {
  }

  lemma DropNothing(b: Buffer, required: int)
    requires BufferInv(b) && required <= 0
    ensures DropOldest(b, required) == b
  {
    StartVisits(b.nodes, b.live, b.history);
    assert DropCount(b.nodes, b.live, b.history, required) == 0;
    ShedStateApart(b.nodes, 0, History, b.history, b.live);
    ReclaimSettled(b.nodes);
  }

  lemma DropCountStep(nodes: seq<Node>, i: nat, live: ConsumerState, history: ConsumerState, required: int)
    requires i < |nodes|
    ensures required <= 0 ==> DropCount(nodes[i..], live, history, required) == 0
    ensures required > 0 ==>
              DropCount(nodes[i..], live, history, required)
              == 1 + DropCount(nodes[i + 1..], live, history,
                               if Drained(nodes[i], live, history) then required - |nodes[i].payload| else required)
  {
    assert nodes[i..][0] == nodes[i] && nodes[i..][1..] == nodes[i + 1..];
  }

  // ------------------------------------------------------------------ forming a batch

  lemma JoinSnoc(items: seq<Item>, m: nat)
    requires m < |items|
    ensures Join(items[..m + 1]) == Join(items[..m]) + items[m].payload
  {
    assert items[..m + 1] == items[..m] + [items[m]];
    JoinConcat(items[..m], [items[m]]);
    assert Join([items[m]]) == items[m].payload + Join([]);
  }

  /** A batch of the first m queued chunks, still to be extended with the rest. */
  ghost predicate Gathering(queue: seq<Item>, rest: seq<Item>, last: nat, payload: Payload, m: nat) {
    && 1 <= m <= |queue| && rest == queue[m..]
    && last == queue[m - 1].seqNo && payload == Join(queue[..m])
    && BatchCount(queue) == m + BatchMore(rest, |payload|)
  }

  lemma GatherStarts(queue: seq<Item>)
    requires queue != []
    ensures Gathering(queue, queue[1..], queue[0].seqNo, queue[0].payload, 1)
  {
    assert queue[..1][1..] == [];
  }

  lemma GatherTakes(queue: seq<Item>, rest: seq<Item>, last: nat, payload: Payload, m: nat)
    requires Gathering(queue, rest, last, payload, m)
    requires rest != [] && |payload| + |rest[0].payload| <= CHUNK_BYTES
    ensures Gathering(queue, rest[1..], rest[0].seqNo, payload + rest[0].payload, m + 1)
  {
    assert rest[1..] == queue[m + 1..];
    JoinSnoc(queue, m);
  }

  lemma GatherStops(queue: seq<Item>, rest: seq<Item>, last: nat, payload: Payload, m: nat)
    requires Gathering(queue, rest, last, payload, m)
    requires rest == [] || |payload| + |rest[0].payload| > CHUNK_BYTES
    ensures queue != [] && last == queue[BatchCount(queue) - 1].seqNo && payload == Join(queue[..BatchCount(queue)])
  {
  }

  lemma ItemsAtEnd(nodes: seq<Node>, k: nat, c: Consumer)
    requires k == |nodes|
    ensures Items(nodes[k..], c) == []
  {
  }

  lemma ItemsHere(nodes: seq<Node>, k: nat, c: Consumer)
    requires k < |nodes| && c in nodes[k].pending
    ensures Items(nodes[k..], c) == [Item(nodes[k].seqNo, nodes[k].payload)] + Items(nodes[k + 1..], c)
  {
    assert nodes[k..][1..] == nodes[k + 1..];
  }

  // ------------------------------------------------------------------ what the invariant says of cursors

  lemma {:induction false} PendingListed(nodes: seq<Node>, c: Consumer, i: nat)
    requires i < |nodes| && c in nodes[i].pending
    ensures Item(nodes[i].seqNo, nodes[i].payload) in Items(nodes, c)
  {
    if i > 0 { PendingListed(nodes[1..], c, i - 1); }
  }

  lemma {:induction false} ListedPending(nodes: seq<Node>, c: Consumer, it: Item) returns (i: nat)
    requires it in Items(nodes, c)
    ensures i < |nodes| && c in nodes[i].pending && nodes[i].seqNo == it.seqNo && nodes[i].payload == it.payload
  {
    if it in Mine(nodes[0], c) {
      i := 0;
    } else {
      i := ListedPending(nodes[1..], c, it);
      i := i + 1;
    }
  }

  /** Where the invariant puts a consumer's cursors among what it sees. */
  ghost predicate Anchored(items: seq<Item>, s: ConsumerState) {
    && (s.inFlight.None? ==> s.next == FirstOf(items))
    && (s.inFlight.Some? ==>
          && s.inFlight.value.first <= s.inFlight.value.last
          && (s.next == None || s.next == Some(s.inFlight.value.first))
          && (forall i :: 0 <= i < |items| ==> s.inFlight.value.first <= items[i].seqNo)
          && (exists i :: 0 <= i < |items| && items[i].seqNo == s.inFlight.value.first)
          && (exists i :: 0 <= i < |items| && items[i].seqNo == s.inFlight.value.last))
  }

  lemma SeenAnchors(items: seq<Item>, s: ConsumerState, stream: seq<Payload>)
    requires Positions(s, |stream|) && Sees(items, s, stream) && Cursor(s, |stream|)
    ensures Anchored(items, s)
  {
    if s.inFlight.Some? {
      var flight := Slice(stream, s.completedSeq, FlightEnd(s));
      assert items[..|flight|] == flight;
      assert items[0] == flight[0] && items[0].seqNo == s.inFlight.value.first;
      assert items[|flight| - 1] == flight[|flight| - 1] && flight[|flight| - 1].seqNo == s.inFlight.value.last;
    } else {
      assert items == Slice(stream, GapEnd(s), |stream|);
    }
  }

  lemma InvAnchors(items: seq<Item>, nextSeq: nat, closed: bool, s: ConsumerState, t: Track)
    requires ConsumerInv(items, nextSeq, closed, s, t)
    ensures Anchored(items, s)
  {
    hide Anchored;
    if s.unavailable.None? {
      RunningSees(items, s, t);
      SeenAnchors(items, s, t.stream);
    } else {
      FailedAnchors(items, s, t);
    }
  }

  lemma RunningSees(items: seq<Item>, s: ConsumerState, t: Track)
    requires Running(items, s, t)
    ensures Positions(s, |t.stream|) && Sees(items, s, t.stream) && Cursor(s, |t.stream|)
  {
  }

  lemma FailedAnchors(items: seq<Item>, s: ConsumerState, t: Track)
    requires s.unavailable.Some? && Failed(items, s, t)
    ensures Anchored(items, s)
  {
  }

  lemma AnchoredFlight(nodes: seq<Node>, c: Consumer, s: ConsumerState)
    requires Anchored(Items(nodes, c), s)
    ensures FlightFirst(nodes, c, s)
  {
    hide Items;
    if s.inFlight.Some? {
      var items := Items(nodes, c);
      forall i | 0 <= i < |nodes| && c in nodes[i].pending ensures s.inFlight.value.first <= nodes[i].seqNo {
        PendingListed(nodes, c, i);
        var j :| 0 <= j < |items| && items[j] == Item(nodes[i].seqNo, nodes[i].payload);
      }
    }
  }

  /** A cursor on a batch in flight is never among the chunks shed. */
  lemma FlightCursorKept(nodes: seq<Node>, c: Consumer, s: ConsumerState)
    requires Anchored(Items(nodes, c), s) && s.inFlight.Some?
    ensures ShedState(nodes, |nodes|, c, s) == AddGaps(s, ShedItems(nodes, |nodes|, c, s))
  {
    hide ShedItems;
    hide AddGaps;
    hide Items;
    AddGapsKeeps(s, ShedItems(nodes, |nodes|, c, s));
    if s.next.Some? && Mentions(ShedItems(nodes, |nodes|, c, s), s.next.value) {
      var j := ShedFrom(nodes, |nodes|, c, s, s.next.value);
      assert false;
    }
  }

  lemma LoseOther(b: Buffer, c: Consumer, seqNo: nat, bytes: nat)
    ensures var b' := AppendLossy(b, c, seqNo, bytes);
            b'.State(Other(c)) == b.State(Other(c)) && Items(b'.nodes, Other(c)) == Items(b.nodes, Other(c))
  {
    ShedFrame(b, |b.nodes|, c);
  }

  lemma NotLossy(b: Buffer, c: Consumer, seqNo: nat, bytes: nat)
    ensures !b.State(c).active || !Lossy(b.State(c)) ==> AppendLossy(b, c, seqNo, bytes) == b
  {
  }

  /** The place of a consumer's cursor is where its queue begins. */
  lemma CursorPlace(nodes: seq<Node>, c: Consumer, n: nat, j: nat)
    requires Shape(nodes, n) && j <= |nodes|
    requires forall i :: 0 <= i < j ==> FirstPending(nodes, c) != Some(nodes[i].seqNo)
    requires FirstPending(nodes, c) == if j < |nodes| then Some(nodes[j].seqNo) else None
    ensures forall i :: 0 <= i < j ==> c !in nodes[i].pending
    ensures j < |nodes| ==> c in nodes[j].pending
    ensures Items(nodes[j..], c) == Items(nodes, c)
  {
    hide Items;
    var f := FirstPlace(nodes, c);
    if f < j && f < |nodes| { assert false; }
    if j < f && f < |nodes| { assert false; }
    assert nodes[0..] == nodes;
    FirstPendingAt(nodes, c, 0, j);
  }

  lemma {:induction false} FirstPlace(nodes: seq<Node>, c: Consumer) returns (f: nat)
    ensures f <= |nodes| && forall i :: 0 <= i < f ==> c !in nodes[i].pending
    ensures f < |nodes| ==> c in nodes[f].pending
    ensures FirstPending(nodes, c) == if f < |nodes| then Some(nodes[f].seqNo) else None
  {
    f := 0;
    if nodes != [] && c !in nodes[0].pending {
      f := FirstPlace(nodes[1..], c);
      f := f + 1;
    }
  }

  /** Where a batch in flight begins and ends in the list. */
  lemma FlightPlaces(nodes: seq<Node>, c: Consumer, s: ConsumerState, n: nat) returns (first: nat, last: nat)
    requires Shape(nodes, n) && Anchored(Items(nodes, c), s) && s.inFlight.Some?
    ensures first <= last < |nodes| && c in nodes[first].pending && c in nodes[last].pending
    ensures nodes[first].seqNo == s.inFlight.value.first && nodes[last].seqNo == s.inFlight.value.last
  {
    hide Items;
    var items := Items(nodes, c);
    var i :| 0 <= i < |items| && items[i].seqNo == s.inFlight.value.first;
    var j :| 0 <= j < |items| && items[j].seqNo == s.inFlight.value.last;
    first := ListedPending(nodes, c, items[i]);
    last := ListedPending(nodes, c, items[j]);
    if last < first { assert false; }
  }

  /** Past the node numbered k. */
  lemma {:induction false} AfterPlace(nodes: seq<Node>, n: nat, j: nat)
    requires Shape(nodes, n) && j < |nodes|
    ensures After(nodes, nodes[j].seqNo) == nodes[j + 1..]
  {
    if j == 0 {
      assert nodes[1..] == [] || nodes[1..][0].seqNo > nodes[0].seqNo;
    } else {
      AfterPlace(nodes[1..], n, j - 1);
      assert nodes[0].seqNo < nodes[j].seqNo;
      assert nodes[1..][j - 1 + 1..] == nodes[j + 1..];
    }
  }

  lemma BytesHere(nodes: seq<Node>, i: nat, c: Consumer)
    requires i < |nodes|
    ensures ItemBytes(Items(nodes[i..], c))
            == (if c in nodes[i].pending then |nodes[i].payload| else 0) + ItemBytes(Items(nodes[i + 1..], c))
  {
    assert nodes[i..][1..] == nodes[i + 1..];
    if c in nodes[i].pending {
      var it := Item(nodes[i].seqNo, nodes[i].payload);
      assert ([it] + Items(nodes[i + 1..], c))[1..] == Items(nodes[i + 1..], c);
    } else {
      assert [] + Items(nodes[i + 1..], c) == Items(nodes[i + 1..], c);
    }
  }

  // ------------------------------------------------------------------ acknowledging

  /** The list once the batch's nodes among its first k were acknowledged. */
  function Acked(nodes: seq<Node>, c: Consumer, span: Span, k: nat): (r: seq<Node>)
    ensures |r| == |nodes|
    ensures forall i :: 0 <= i < |nodes| ==> r[i] == if i < k then AckNode(nodes[i], c, span) else nodes[i]
  {
    seq(|nodes|, i requires 0 <= i < |nodes| => if i < k then AckNode(nodes[i], c, span) else nodes[i])
  }

  lemma AckBegins(nodes: seq<Node>, c: Consumer, span: Span, n: nat, k: nat)
    requires Shape(nodes, n) && k < |nodes| && nodes[k].seqNo == span.first
    ensures Acked(nodes, c, span, k) == nodes
  {
    forall i | 0 <= i < k ensures AckNode(nodes[i], c, span) == nodes[i] {
      assert nodes[i].seqNo < nodes[k].seqNo;
    }
  }

  lemma AckVisit(nodes: seq<Node>, c: Consumer, span: Span, n: nat, first: nat, k: nat, last: nat)
    requires Shape(nodes, n) && first <= k <= last < |nodes|
    requires nodes[first].seqNo == span.first && nodes[last].seqNo == span.last
    ensures Acked(nodes, c, span, k)[k := nodes[k].(pending := nodes[k].pending - {c})] == Acked(nodes, c, span, k + 1)
  {
    hide AckNode;
    assert AckNode(nodes[k], c, span) == nodes[k].(pending := nodes[k].pending - {c}) by {
      AckInside(nodes, c, span, n, first, k, last);
    }
  }

  lemma AckInside(nodes: seq<Node>, c: Consumer, span: Span, n: nat, first: nat, k: nat, last: nat)
    requires Shape(nodes, n) && first <= k <= last < |nodes|
    requires nodes[first].seqNo == span.first && nodes[last].seqNo == span.last
    ensures AckNode(nodes[k], c, span) == nodes[k].(pending := nodes[k].pending - {c})
  {
    if first < k { assert nodes[first].seqNo < nodes[k].seqNo; }
    if k < last { assert nodes[k].seqNo < nodes[last].seqNo; }
  }

  lemma AckSkips(nodes: seq<Node>, c: Consumer, span: Span, k: nat, after: nat)
    requires k <= after <= |nodes| && forall i :: k <= i < after ==> c !in nodes[i].pending
    ensures Acked(nodes, c, span, k) == Acked(nodes, c, span, after)
  {
    forall i | k <= i < after ensures AckNode(nodes[i], c, span) == nodes[i] {
      assert nodes[i].pending - {c} == nodes[i].pending;
    }
  }

  lemma AckEnds(nodes: seq<Node>, c: Consumer, span: Span, n: nat, last: nat)
    requires Shape(nodes, n) && last < |nodes| && nodes[last].seqNo == span.last
    ensures Acked(nodes, c, span, last + 1) == AckNodes(nodes, c, span)
  {
    forall i | last < i < |nodes| ensures AckNode(nodes[i], c, span) == nodes[i] {
      assert nodes[last].seqNo < nodes[i].seqNo;
    }
  }

  lemma InOrder(nodes: seq<Node>, n: nat, i: nat, j: nat)
    requires Shape(nodes, n) && i < |nodes| && j < |nodes|
    ensures i < j <==> nodes[i].seqNo < nodes[j].seqNo
  {
    if i < j { assert nodes[i].seqNo < nodes[j].seqNo; }
    if j < i { assert nodes[j].seqNo < nodes[i].seqNo; }
  }

  /** Once a batch is acknowledged, nothing up to its end is pending any more. */
  lemma AckedBeyond(nodes: seq<Node>, c: Consumer, s: ConsumerState, n: nat, last: nat)
    requires Shape(nodes, n) && FlightFirst(nodes, c, s) && s.inFlight.Some?
    requires last < |nodes| && nodes[last].seqNo == s.inFlight.value.last
    ensures var acked := AckNodes(nodes, c, s.inFlight.value);
            Shape(acked, n) && forall i :: 0 <= i <= last ==> c !in acked[i].pending
  {
    forall i | 0 <= i <= last ensures c !in AckNodes(nodes, c, s.inFlight.value)[i].pending {
      if i < last { assert nodes[i].seqNo < nodes[last].seqNo; }
    }
  }

  // ------------------------------------------------------------------ releasing

  lemma ReleaseIsShed(nodes: seq<Node>, c: Consumer, s: ConsumerState, from: nat)
    requires from <= |nodes| && s.inFlight.None?
    requires forall i :: 0 <= i < from ==> c !in nodes[i].pending
    ensures ReleaseNodes(nodes, c) == ShedNodes(nodes, |nodes|, c, s)
    ensures nodes == ShedNodes(nodes, from, c, s)
  {
    forall i | 0 <= i < from ensures ShedNode(nodes[i], c, s) == nodes[i] {
      UnmarkedStays(nodes[i], c, s);
    }
  }

  lemma {:induction false} SkipUnmarked(nodes: seq<Node>, c: Consumer, from: nat)
    requires from <= |nodes| && forall i :: 0 <= i < from ==> c !in nodes[i].pending
    ensures Items(nodes[from..], c) == Items(nodes, c)
  {
    if from == 0 {
      assert nodes[from..] == nodes;
    } else {
      SkipUnmarked(nodes[1..], c, from - 1);
      assert nodes[1..][from - 1..] == nodes[from..];
    }
  }

  lemma NoItems()
    ensures ItemBytes([]) == 0
  {
  }

  // ------------------------------------------------------------------ what the sections use

  /** A worker without a batch in hand has none in flight. */
  lemma HandsFree(w: World, c: Consumer)
    requires Inv(w) && !w.T(c).held.HoldsBatch?
    ensures w.b.State(c).inFlight.None?
  {
    hide Tiles;
    hide Items;
    hide BufferInv;
    hide WriterInv;
    assert Tracks(w, c);
  }

  lemma Shrinks(w: World, required: int)
    requires Inv(w)
    ensures DropOldest(w.b, required).resident <= w.b.resident
  {
    hide Inv;
    hide DropOldest;
    DropOldestKeeps(w, required);
  }

  lemma FetchKept(b: Buffer, c: Consumer)
    ensures Fetch(b, c).Wait? || Fetch(b, c).Stop? ==> FetchState(b, c) == b
  {
    hide Fetch;
  }
}
