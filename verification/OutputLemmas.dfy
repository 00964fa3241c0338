/** List facts the output-buffer proofs share: how each list edit looks to one consumer. */
module OutputLemmas {
  import opened OutputModel

  lemma {:induction false} ItemsConcat(a: seq<Node>, b: seq<Node>, c: Consumer)
    ensures Items(a + b, c) == Items(a, c) + Items(b, c)
  {
    if a == [] {
      assert a + b == b;
    } else {
      assert (a + b)[1..] == a[1..] + b;
      ItemsConcat(a[1..], b, c);
    }
  }

  lemma ItemsCons(h: Node, rest: seq<Node>, c: Consumer)
    ensures Items([h] + rest, c) == Mine(h, c) + Items(rest, c)
  {
    assert ([h] + rest)[1..] == rest;
  }

  lemma {:induction false} BytesConcat(a: seq<Item>, b: seq<Item>)
    ensures ItemBytes(a + b) == ItemBytes(a) + ItemBytes(b)
  {
    if a == [] {
      assert a + b == b;
    } else {
      assert (a + b)[1..] == a[1..] + b;
      BytesConcat(a[1..], b);
    }
  }

  lemma {:induction false} JoinLength(a: seq<Item>)
    ensures |Join(a)| == ItemBytes(a)
  {
    if a != [] { JoinLength(a[1..]); }
  }

  lemma {:induction false} JoinConcat(a: seq<Item>, b: seq<Item>)
    ensures Join(a + b) == Join(a) + Join(b)
  {
    if a == [] {
      assert a + b == b;
    } else {
      assert (a + b)[1..] == a[1..] + b;
      JoinConcat(a[1..], b);
    }
  }

  lemma {:induction false} NodeBytesConcat(a: seq<Node>, b: seq<Node>)
    ensures NodeBytes(a + b) == NodeBytes(a) + NodeBytes(b)
  {
    if a == [] {
      assert a + b == b;
    } else {
      assert (a + b)[1..] == a[1..] + b;
      NodeBytesConcat(a[1..], b);
    }
  }

  lemma {:induction false} FirstPendingIsFirstItem(nodes: seq<Node>, c: Consumer)
    ensures FirstPending(nodes, c) == if Items(nodes, c) == [] then None else Some(Items(nodes, c)[0].seqNo)
  {
    if nodes != [] { FirstPendingIsFirstItem(nodes[1..], c); }
  }

  // ------------------------------------------------------------------ list shape

  /** Listed in the order written, every chunk non-empty and already numbered. */
  ghost predicate Shape(nodes: seq<Node>, nextSeq: nat) {
    && (forall i :: 0 <= i < |nodes| ==> 1 <= nodes[i].seqNo <= nextSeq && nodes[i].payload != [])
    && (forall i, j :: 0 <= i < j < |nodes| ==> nodes[i].seqNo < nodes[j].seqNo)
  }

  /** The same chunks in the same order, whatever their marks. */
  ghost predicate SameChunks(a: seq<Node>, b: seq<Node>) {
    && |a| == |b|
    && (forall i :: 0 <= i < |a| ==> a[i].seqNo == b[i].seqNo && a[i].payload == b[i].payload)
  }

  lemma {:induction false} SameChunksBytes(a: seq<Node>, b: seq<Node>)
    requires SameChunks(a, b)
    ensures NodeBytes(a) == NodeBytes(b)
  {
    if a != [] {
      assert a[0].payload == b[0].payload;
      SameChunksBytes(a[1..], b[1..]);
    }
  }

  lemma {:induction false} ReclaimSubset(nodes: seq<Node>)
    ensures forall n :: n in Reclaim(nodes) <==> n in nodes && n.pending != {}
    ensures |Reclaim(nodes)| <= |nodes|
  {
    if nodes != [] {
      ReclaimSubset(nodes[1..]);
      assert nodes == [nodes[0]] + nodes[1..];
    }
  }

  lemma {:induction false} ReclaimBytes(nodes: seq<Node>)
    ensures NodeBytes(Reclaim(nodes)) <= NodeBytes(nodes)
  {
    if nodes != [] {
      ReclaimBytes(nodes[1..]);
      if nodes[0].pending != {} {
        assert Reclaim(nodes)[1..] == Reclaim(nodes[1..]);
      } else {
        assert Reclaim(nodes) == Reclaim(nodes[1..]);
      }
    }
  }

  lemma {:induction false} ReclaimShape(nodes: seq<Node>, nextSeq: nat)
    requires Shape(nodes, nextSeq)
    ensures Shape(Reclaim(nodes), nextSeq)
  {
    if nodes != [] {
      var rest := nodes[1..];
      ReclaimShape(rest, nextSeq);
      ReclaimSubset(rest);
      var r := Reclaim(rest);
      forall i | 0 <= i < |r| ensures nodes[0].seqNo < r[i].seqNo {
        assert r[i] in rest;
      }
      assert Reclaim(nodes) == (if nodes[0].pending != {} then [nodes[0]] else []) + r;
    }
  }

  lemma {:induction false} ReclaimItems(nodes: seq<Node>, c: Consumer)
    ensures Items(Reclaim(nodes), c) == Items(nodes, c)
  {
    if nodes != [] {
      ReclaimItems(nodes[1..], c);
      if nodes[0].pending != {} {
        assert Reclaim(nodes)[1..] == Reclaim(nodes[1..]);
      } else {
        assert Reclaim(nodes) == Reclaim(nodes[1..]);
      }
    }
  }

  lemma {:induction false} ReclaimSettled(nodes: seq<Node>)
    requires forall i :: 0 <= i < |nodes| ==> nodes[i].pending != {}
    ensures Reclaim(nodes) == nodes
  {
    if nodes != [] { ReclaimSettled(nodes[1..]); }
  }

  // ------------------------------------------------------------------ shedding

  function Kept(items: seq<Item>, s: ConsumerState): seq<Item> {
    if items == [] then []
    else (if InFlight(s, items[0].seqNo) then [items[0]] else []) + Kept(items[1..], s)
  }

  function Gone(items: seq<Item>, s: ConsumerState): seq<Item> {
    if items == [] then []
    else (if InFlight(s, items[0].seqNo) then [] else [items[0]]) + Gone(items[1..], s)
  }

  lemma {:induction false} AllInFlight(items: seq<Item>, s: ConsumerState)
    requires forall i :: 0 <= i < |items| ==> InFlight(s, items[i].seqNo)
    ensures Kept(items, s) == items && Gone(items, s) == []
  {
    if items != [] { AllInFlight(items[1..], s); }
  }

  lemma {:induction false} NoneInFlight(items: seq<Item>, s: ConsumerState)
    requires forall i :: 0 <= i < |items| ==> !InFlight(s, items[i].seqNo)
    ensures Kept(items, s) == [] && Gone(items, s) == items
  {
    if items != [] { NoneInFlight(items[1..], s); }
  }

  lemma {:induction false} KeptGoneConcat(a: seq<Item>, b: seq<Item>, s: ConsumerState)
    ensures Kept(a + b, s) == Kept(a, s) + Kept(b, s)
    ensures Gone(a + b, s) == Gone(a, s) + Gone(b, s)
  {
    if a == [] {
      assert a + b == b;
    } else {
      assert (a + b)[1..] == a[1..] + b;
      KeptGoneConcat(a[1..], b, s);
    }
  }

  lemma ShedHead(h: Node, c: Consumer, s: ConsumerState)
    ensures Kept(Mine(h, c), s) == if InFlight(s, h.seqNo) then Mine(h, c) else []
    ensures Gone(Mine(h, c), s) == if InFlight(s, h.seqNo) then [] else Mine(h, c)
  {
  }

  lemma {:induction false} ShedGone(nodes: seq<Node>, k: nat, c: Consumer, s: ConsumerState)
    requires k <= |nodes|
    ensures ShedItems(nodes, k, c, s) == Gone(Items(nodes[..k], c), s)
  {
    if k > 0 {
      var h, rest := nodes[0], nodes[1..];
      ShedGone(rest, k - 1, c, s);
      assert nodes[..k] == [h] + rest[..k - 1];
      ItemsCons(h, rest[..k - 1], c);
      KeptGoneConcat(Mine(h, c), Items(rest[..k - 1], c), s);
      ShedHead(h, c, s);
    }
  }

  lemma ShedCons(nodes: seq<Node>, k: nat, c: Consumer, s: ConsumerState)
    requires nodes != [] && k > 0
    ensures ShedNodes(nodes, k, c, s) == [ShedNode(nodes[0], c, s)] + ShedNodes(nodes[1..], k - 1, c, s)
  {
  }

  /** Shedding, seen by the consumer that sheds. */
  lemma {:induction false} ShedOwn(nodes: seq<Node>, k: nat, c: Consumer, s: ConsumerState)
    requires k <= |nodes|
    ensures Items(ShedNodes(nodes, k, c, s), c) == Kept(Items(nodes[..k], c), s) + Items(nodes[k..], c)
  {
    if k == 0 {
      assert nodes[k..] == nodes == ShedNodes(nodes, k, c, s);
      assert Items(nodes[..k], c) == [];
    } else {
      hide Items;
      hide Kept;
      hide Gone;
      hide ShedNodes;
      var h, rest := nodes[0], nodes[1..];
      var head, tail := rest[..k - 1], rest[k - 1..];
      assert nodes[k..] == tail;
      assert nodes[..k] == [h] + head;
      calc {
        Items(ShedNodes(nodes, k, c, s), c);
        { ShedCons(nodes, k, c, s); ItemsCons(ShedNode(h, c, s), ShedNodes(rest, k - 1, c, s), c); }
        Mine(ShedNode(h, c, s), c) + Items(ShedNodes(rest, k - 1, c, s), c);
        { ShedOwn(rest, k - 1, c, s); ShedHead(h, c, s); assert Mine(ShedNode(h, c, s), c) == Kept(Mine(h, c), s); }
        Kept(Mine(h, c), s) + (Kept(Items(head, c), s) + Items(tail, c));
        (Kept(Mine(h, c), s) + Kept(Items(head, c), s)) + Items(tail, c);
        { KeptGoneConcat(Mine(h, c), Items(head, c), s); }
        Kept(Mine(h, c) + Items(head, c), s) + Items(tail, c);
        { ItemsCons(h, head, c); }
        Kept(Items([h] + head, c), s) + Items(tail, c);
      }
    }
  }

  /** Shedding changes nothing the other consumer sees, and no chunk. */
  lemma {:induction false} ShedOther(nodes: seq<Node>, k: nat, c: Consumer, s: ConsumerState)
    ensures SameChunks(ShedNodes(nodes, k, c, s), nodes)
    ensures Items(ShedNodes(nodes, k, c, s), Other(c)) == Items(nodes, Other(c))
  {
    if nodes != [] && k > 0 {
      ShedOther(nodes[1..], k - 1, c, s);
      assert ShedNodes(nodes, k, c, s)[1..] == ShedNodes(nodes[1..], k - 1, c, s);
    } else {
      assert ShedNodes(nodes, k, c, s) == nodes;
    }
  }

  // ------------------------------------------------------------------ acknowledging and releasing

  lemma {:induction false} AckOther(nodes: seq<Node>, c: Consumer, span: Span)
    ensures SameChunks(AckNodes(nodes, c, span), nodes)
    ensures Items(AckNodes(nodes, c, span), Other(c)) == Items(nodes, Other(c))
  {
    if nodes != [] {
      AckOther(nodes[1..], c, span);
      assert AckNodes(nodes, c, span)[1..] == AckNodes(nodes[1..], c, span);
    }
  }

  lemma AckCons(nodes: seq<Node>, c: Consumer, span: Span)
    requires nodes != []
    ensures AckNodes(nodes, c, span) == [AckNode(nodes[0], c, span)] + AckNodes(nodes[1..], c, span)
  {
  }

  /** Acknowledging removes exactly the batch's chunks from the consumer's view. */
  lemma {:induction false} AckOwn(nodes: seq<Node>, c: Consumer, s: ConsumerState)
    requires s.inFlight.Some?
    ensures Items(AckNodes(nodes, c, s.inFlight.value), c) == Gone(Items(nodes, c), s)
  {
    if nodes != [] {
      AckOwn(nodes[1..], c, s);
      ShedHead(nodes[0], c, s);
      KeptGoneConcat(Mine(nodes[0], c), Items(nodes[1..], c), s);
      AckCons(nodes, c, s.inFlight.value);
      ItemsCons(AckNode(nodes[0], c, s.inFlight.value), AckNodes(nodes[1..], c, s.inFlight.value), c);
    }
  }

  lemma {:induction false} ReleaseViews(nodes: seq<Node>, c: Consumer)
    ensures SameChunks(ReleaseNodes(nodes, c), nodes)
    ensures Items(ReleaseNodes(nodes, c), c) == []
    ensures Items(ReleaseNodes(nodes, c), Other(c)) == Items(nodes, Other(c))
  {
    if nodes != [] {
      ReleaseViews(nodes[1..], c);
      assert ReleaseNodes(nodes, c)[1..] == ReleaseNodes(nodes[1..], c);
    }
  }

  /** Past a consumer's last acknowledged chunk the list holds exactly what it still sees. */
  lemma {:induction false} AfterItems(nodes: seq<Node>, c: Consumer, k: nat, nextSeq: nat)
    requires Shape(nodes, nextSeq)
    requires forall it :: it in Items(nodes, c) ==> it.seqNo > k
    ensures Items(After(nodes, k), c) == Items(nodes, c)
  {
    if nodes != [] && nodes[0].seqNo <= k {
      assert Mine(nodes[0], c) == [] || Mine(nodes[0], c)[0] in Items(nodes, c);
      assert Items(nodes, c) == Items(nodes[1..], c);
      AfterItems(nodes[1..], c, k, nextSeq);
    }
  }
}
