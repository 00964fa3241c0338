/**
 The buffer's list as it lies in memory: cells linked by `next`, a head and a tail.

 `spine` is the sequence of the linked cells. Every walk and every edit of the links is proved
 to be the list function of `OutputModel` on the values along it, so a `seq` of nodes loses
 nothing that the links carry.
 */
module OutputList {
  import opened OutputModel
  import opened OutputLoops

  class Cell {
    const seqNo: nat
    var payload: Payload
    var pending: set<Consumer>
    var next: Cell?

    constructor (seqNo: nat, payload: Payload, pending: set<Consumer>)
      ensures this.seqNo == seqNo && this.payload == payload && this.pending == pending && next == null
    {
      this.seqNo, this.payload, this.pending, next := seqNo, payload, pending, null;
    }

    ghost function Value(): Node
      reads this
    {
      Node(seqNo, payload, pending)
    }
  }

  function At(cells: seq<Cell>, i: int): Cell? {
    if 0 <= i < |cells| then cells[i] else null
  }

  /** The links run along the cells, each of which occurs once. */
  ghost predicate Linked(cells: seq<Cell>, nexts: seq<Cell?>, head: Cell?, tail: Cell?) {
    && |nexts| == |cells| && head == At(cells, 0) && tail == At(cells, |cells| - 1)
    && (forall i, j :: 0 <= i < j < |cells| ==> cells[i] != cells[j])
    && (forall i :: 0 <= i < |nexts| ==> nexts[i] == At(cells, i + 1))
  }

  /** Every cell is one of those before with its value, and every one somebody waits for is still there. */
  ghost predicate Keeps(cells: seq<Cell>, contents: seq<Node>, cells': seq<Cell>, contents': seq<Node>) {
    && |contents| == |cells| && |contents'| == |cells'|
    && (forall i :: 0 <= i < |cells'| ==> Stems(cells, contents, cells'[i], contents'[i]))
    && (forall j :: 0 <= j < |cells| && contents[j].pending != {} ==> cells[j] in cells')
  }

  ghost predicate Stems(cells: seq<Cell>, contents: seq<Node>, cell: Cell, value: Node)
    requires |contents| == |cells|
  {
    exists j :: 0 <= j < |cells| && cells[j] == cell && contents[j] == value
  }

  class ChunkList {
    var head: Cell?
    var tail: Cell?
    /** The linked cells in order, the link of each, and its value. */
    ghost var spine: seq<Cell>
    ghost var nexts: seq<Cell?>
    ghost var contents: seq<Node>

    ghost predicate Valid()
      reads this, spine
    {
      && Linked(spine, nexts, head, tail)
      && |contents| == |spine| == |nexts|
      && (forall i :: 0 <= i < |spine| ==> spine[i].next == nexts[i] && spine[i].Value() == contents[i])
    }

    constructor ()
      ensures Valid() && contents == [] && spine == []
    {
      head, tail, spine, nexts, contents := null, null, [], [], [];
    }

    /** A chunk is linked behind the last one. */
    method Link(seqNo: nat, payload: Payload, pending: set<Consumer>) returns (cell: Cell)
      requires Valid()
      modifies this, tail
      ensures Valid() && fresh(cell) && spine == old(spine) + [cell]
      ensures contents == old(contents) + [Node(seqNo, payload, pending)]
    {
      ghost var n := |spine|;
      LinkedEnds(spine, nexts, head, tail, n);
      hide Linked;
      hide At;
      cell := new Cell(seqNo, payload, pending);
      LinkMore(spine, nexts, head, tail, cell);
      if tail == null {
        head := cell;
      } else {
        tail.next := cell;
        nexts := nexts[n - 1 := cell];
      }
      tail := cell;
      spine, nexts, contents := spine + [cell], nexts + [null], contents + [Node(seqNo, payload, pending)];
    }

    /** nextPendingNodeLocked, from the cell at place `from` on. */
    method FindPending(c: Consumer, start: Cell?, ghost from: nat) returns (cell: Cell?, ghost place: nat)
      requires Valid() && from <= |spine| && start == At(spine, from)
      ensures from <= place <= |spine| && cell == At(spine, place)
      ensures FirstPending(contents[from..], c) == if cell == null then None else Some(cell.seqNo)
      ensures cell != null ==> c in cell.pending
    {
      hide Linked;
      cell, place := start, from;
      while cell != null && c !in cell.pending
        invariant from <= place <= |spine| && cell == At(spine, place)
        invariant forall i :: from <= i < place ==> c !in contents[i].pending
        decreases |spine| - place
      {
        LinkedAt(spine, nexts, head, tail, place);
        assert cell.Value() == contents[place];
        cell, place := cell.next, place + 1;
      }
      if cell != null { assert cell.Value() == contents[place]; }
      FirstPendingAt(contents, c, from, place);
    }

    /** outputNodeInFlightLocked: the walk from the first cell of a batch to its last meets the target. */
    method Meets(first: Cell, last: Cell, target: Cell, ghost a: nat, ghost b: nat, ghost t: nat) returns (met: bool)
      requires Valid() && a <= b < |spine| && t < |spine|
      requires first == spine[a] && last == spine[b] && target == spine[t]
      ensures met <==> a <= t <= b
    {
      hide Linked;
      var cell: Cell? := first;
      ghost var place := a;
      while cell != null
        invariant a <= place <= b && cell == spine[place]
        invariant a <= t ==> place <= t
        decreases b - place
      {
        LinkedOnce(spine, nexts, head, tail, place, t);
        LinkedOnce(spine, nexts, head, tail, place, b);
        if cell == target {
          return true;
        }
        if cell == last {
          return false;
        }
        LinkedAt(spine, nexts, head, tail, place);
        cell, place := cell.next, place + 1;
      }
      met := false;
    }

    /** With numbers that rise along the list, the walk and the numbers agree. */
    method Flying(first: Cell, last: Cell, target: Cell, ghost a: nat, ghost b: nat, ghost t: nat) returns (flying: bool)
      requires Valid() && Rising(contents) && a <= b < |spine| && t < |spine|
      requires first == spine[a] && last == spine[b] && target == spine[t]
      ensures flying <==> first.seqNo <= target.seqNo <= last.seqNo
    {
      hide Linked;
      hide Rising;
      assert first.Value() == contents[a] && last.Value() == contents[b] && target.Value() == contents[t];
      RisingPlaces(contents, a, t);
      RisingPlaces(contents, t, b);
      flying := Meets(first, last, target, a, b, t);
    }

    /** One cell loses c's mark. */
    method Unmark(cell: Cell, c: Consumer, ghost place: nat) returns (bytes: nat)
      requires Valid() && place < |spine| && cell == spine[place]
      modifies cell`pending, this`contents
      ensures Valid()
      ensures contents == old(contents)[place := old(contents)[place].(pending := old(contents)[place].pending - {c})]
      ensures bytes == if c in old(contents)[place].pending then |old(contents)[place].payload| else 0
    {
      LinkedApart(spine, nexts, head, tail, place);
      hide Linked;
      assert cell.Value() == contents[place];
      bytes := 0;
      if c in cell.pending {
        cell.pending := cell.pending - {c};
        bytes := |cell.payload|;
      } else {
        assert cell.pending - {c} == cell.pending;
      }
      contents := contents[place := cell.Value()];
    }

    /** releaseConsumerLocked, from the cell at place `from` on: c gives up its mark on every cell. */
    method GiveUp(c: Consumer, start: Cell?, ghost from: nat) returns (released: nat)
      requires Valid() && from <= |spine| && start == At(spine, from)
      modifies this`contents, spine
      ensures Valid() && spine == old(spine)
      ensures contents == old(contents)[..from] + ReleaseNodes(old(contents)[from..], c)
      ensures released == ItemBytes(Items(old(contents)[from..], c))
    {
      hide Linked;
      released := 0;
      var cell := start;
      ghost var place := from;
      ghost var was := contents;
      assert UnmarkedTo(was, c, from, place, contents);
      hide UnmarkedTo;
      hide Left;
      while cell != null
        invariant Valid() && from <= place <= |spine| && cell == At(spine, place)
        invariant UnmarkedTo(was, c, from, place, contents)
        invariant released + Left(was, place, c) == Left(was, from, c)
        decreases |spine| - place
      {
        LeftNext(was, place, c);
        UnmarkedNext(was, c, from, place, contents);
        LinkedAt(spine, nexts, head, tail, place);
        var bytes := Unmark(cell, c, place);
        released := released + bytes;
        cell, place := cell.next, place + 1;
      }
      assert place == |was|;
      UnmarkedAll(was, c, from, contents);
      NothingLeft(was, from, c);
    }

    /** The links lead around the cell at a place. */
    method Bypass(previous: Cell?, cell: Cell, ghost place: nat) returns (next: Cell?)
      requires Valid() && place < |spine| && cell == spine[place] && previous == At(spine, place - 1)
      modifies this`head, this`tail, this`nexts, previous
      ensures next == old(nexts)[place] && nexts == (if place == 0 then old(nexts) else old(nexts)[place - 1 := next])
      ensures head == (if place == 0 then next else old(head))
      ensures tail == (if old(tail) == spine[place] then At(spine, place - 1) else old(tail))
      ensures forall i :: 0 <= i < |spine| ==> spine[i].next == nexts[i] && spine[i].Value() == contents[i]
    {
      PreviousApart(spine, nexts, head, tail, place);
      hide Linked;
      hide At;
      next := cell.next;
      if previous == null {
        head := next;
      } else {
        previous.next := next;
        nexts := nexts[place - 1 := next];
      }
      if tail == cell {
        tail := previous;
      }
    }

    /** The cell at a place is taken out of the list. */
    method CutOut(previous: Cell?, cell: Cell, ghost place: nat) returns (next: Cell?)
      requires Valid() && place < |spine| && cell == spine[place] && previous == At(spine, place - 1)
      modifies this, previous, cell
      ensures Valid() && spine == Without(old(spine), place) && next == At(spine, place)
      ensures contents == Without(old(contents), place)
    {
      LinkedApart(spine, nexts, head, tail, place);
      CutLinks(spine, nexts, head, tail, place);
      hide Linked;
      hide At;
      next := Bypass(previous, cell, place);
      cell.payload := [];
      cell.next := null;
      Forget(place);
    }

    /** The cell at a place no longer counts. */
    ghost method Forget(place: nat)
      requires place < |spine| == |nexts| == |contents|
      requires forall j :: 0 <= j < |spine| && j != place ==> spine[j].next == nexts[j] && spine[j].Value() == contents[j]
      modifies this`spine, this`nexts, this`contents
      ensures spine == Without(old(spine), place) && nexts == Without(old(nexts), place)
      ensures contents == Without(old(contents), place)
      ensures forall i :: 0 <= i < |spine| ==> spine[i].next == nexts[i] && spine[i].Value() == contents[i]
    {
      hide Linked;
      var cells, links, values := spine, nexts, contents;
      spine, nexts, contents := Without(spine, place), Without(nexts, place), Without(contents, place);
      forall i | 0 <= i < |spine| ensures spine[i].next == nexts[i] && spine[i].Value() == contents[i] {
        var j := if i < place then i else i + 1;
        assert spine[i] == cells[j] && nexts[i] == links[j] && contents[i] == values[j];
      }
    }

    /** One cell of the sweep: it stays and the walk goes on, or it goes. */
    method SweepAt(previous: Cell?, cell: Cell, ghost place: nat)
      returns (previous': Cell?, cell': Cell?, bytes: nat, ghost place': nat)
      requires Valid() && place < |spine| && cell == spine[place] && previous == At(spine, place - 1)
      modifies this, previous, cell
      ensures Valid() && place' <= |spine| && cell' == At(spine, place') && previous' == At(spine, place' - 1)
      ensures if old(contents)[place].pending != {}
              then spine == old(spine) && contents == old(contents) && place' == place + 1 && bytes == 0
              else && spine == Without(old(spine), place) && contents == Without(old(contents), place)
                   && place' == place && bytes == |old(contents)[place].payload|
    {
      hide Linked;
      hide Without;
      assert cell.Value() == contents[place];
      if cell.pending != {} {
        LinkedAt(spine, nexts, head, tail, place);
        previous', cell', bytes, place' := cell, cell.next, 0, place + 1;
      } else {
        previous', bytes, place' := previous, |cell.payload|, place;
        cell' := CutOut(previous, cell, place);
      }
    }

    /** The same, with what the sweep has done so far. */
    method SweepNext(previous: Cell?, cell: Cell, ghost place: nat, freed: int, ghost before: Before)
      returns (previous': Cell?, cell': Cell?, freed': int, ghost place': nat)
      requires Valid() && place < |spine| && cell == spine[place] && previous == At(spine, place - 1)
      requires SweptTo(before, spine, contents, place, freed)
      modifies this, previous, cell
      ensures Valid() && place' <= |spine| && cell' == At(spine, place') && previous' == At(spine, place' - 1)
      ensures SweptTo(before, spine, contents, place', freed') && |spine| - place' < old(|spine|) - place
    {
      hide Linked;
      hide SweptTo;
      hide Without;
      SweptNext(before, spine, contents, place, freed);
      var bytes;
      previous', cell', bytes, place' := SweepAt(previous, cell, place);
      freed' := freed + bytes;
    }

    /** reclaimLocked: every cell nobody waits for is unlinked, wherever it stands. */
    method Unlink() returns (freed: int)
      requires Valid()
      modifies this, spine
      ensures Valid() && contents == Reclaim(old(contents)) && Keeps(old(spine), old(contents), spine, contents)
      ensures freed == NodeBytes(old(contents)) - NodeBytes(contents)
    {
      hide Keeps;
      hide SweptTo;
      hide Reclaim;
      hide NodeBytes;
      ghost var before := Before(spine, nexts, head, tail, contents);
      LinkedEnds(spine, nexts, head, tail, |spine|);
      SweptNothing(before);
      hide Linked;
      freed := 0;
      var previous: Cell?, cell := null, head;
      ghost var place: nat := 0;
      while cell != null
        invariant Valid() && place <= |spine| && cell == At(spine, place) && previous == At(spine, place - 1)
        invariant SweptTo(before, spine, contents, place, freed)
        decreases |spine| - place
      {
        SweptOld(before, spine, contents, place, freed);
        previous, cell, freed, place := SweepNext(previous, cell, place, freed, before);
      }
      SweptAll(before, spine, contents, place, freed);
    }
  }

  /** A list as it was. */
  datatype Before = Before(cells: seq<Cell>, links: seq<Cell?>, head: Cell?, tail: Cell?, contents: seq<Node>)

  // ------------------------------------------------------------------ what the loops have done

  /** The list is swept up to a place. */
  ghost predicate SweptTo(was: Before, spine: seq<Cell>, now: seq<Node>, place: nat, freed: int) {
    && Linked(was.cells, was.links, was.head, was.tail)
    && Keeps(was.cells, was.contents, spine, now)
    && place <= |now| && now[..place] + Reclaim(now[place..]) == Reclaim(was.contents)
    && freed == NodeBytes(was.contents) - NodeBytes(now)
  }

  lemma SweptNothing(was: Before)
    requires Linked(was.cells, was.links, was.head, was.tail) && |was.contents| == |was.cells|
    ensures SweptTo(was, was.cells, was.contents, 0, 0)
  {
    KeepsSelf(was.cells, was.contents);
    assert was.contents[0..] == was.contents;
  }

  lemma SweptNext(was: Before, spine: seq<Cell>, now: seq<Node>, place: nat, freed: int)
    requires SweptTo(was, spine, now, place, freed) && place < |now| == |spine|
    ensures if now[place].pending != {} then SweptTo(was, spine, now, place + 1, freed)
            else SweptTo(was, Without(spine, place), Without(now, place), place, freed + |now[place].payload|)
  {
    if now[place].pending != {} {
      hide Keeps;
      hide Linked;
      ReclaimKeeps(now, place);
    } else {
      KeepsCut(was.cells, was.links, was.head, was.tail, was.contents, spine, now, place);
      hide Keeps;
      hide Linked;
      ReclaimCuts(now, place, Without(now, place));
    }
  }

  lemma SweptOld(was: Before, spine: seq<Cell>, now: seq<Node>, place: nat, freed: int)
    requires SweptTo(was, spine, now, place, freed) && place < |spine|
    ensures spine[place] in was.cells && (place > 0 ==> spine[place - 1] in was.cells)
  {
    KeepsOld(was.cells, was.contents, spine, now, place);
  }

  lemma KeepsOld(cells: seq<Cell>, was: seq<Node>, spine: seq<Cell>, now: seq<Node>, place: nat)
    requires Keeps(cells, was, spine, now) && place < |spine|
    ensures spine[place] in cells && (place > 0 ==> spine[place - 1] in cells)
  {
    assert Stems(cells, was, spine[place], now[place]);
    if place > 0 { assert Stems(cells, was, spine[place - 1], now[place - 1]); }
  }

  lemma SweptAll(was: Before, spine: seq<Cell>, now: seq<Node>, place: nat, freed: int)
    requires SweptTo(was, spine, now, place, freed) && place == |now|
    ensures Keeps(was.cells, was.contents, spine, now)
    ensures now == Reclaim(was.contents) && freed == NodeBytes(was.contents) - NodeBytes(now)
  {
    hide Keeps;
    hide Linked;
  }

  ghost predicate Rising(nodes: seq<Node>) {
    forall i, j :: 0 <= i < j < |nodes| ==> nodes[i].seqNo < nodes[j].seqNo
  }

  lemma RisingPlaces(nodes: seq<Node>, a: nat, b: nat)
    requires Rising(nodes) && a < |nodes| && b < |nodes|
    ensures nodes[a].seqNo <= nodes[b].seqNo <==> a <= b
  {
  }

  /** The marks of c are off from `from` up to `place`. */
  ghost predicate UnmarkedTo(was: seq<Node>, c: Consumer, from: nat, place: nat, now: seq<Node>) {
    |now| == |was| && forall i :: 0 <= i < |was| ==>
      now[i] == if from <= i < place then was[i].(pending := was[i].pending - {c}) else was[i]
  }

  lemma UnmarkedNext(was: seq<Node>, c: Consumer, from: nat, place: nat, now: seq<Node>)
    requires UnmarkedTo(was, c, from, place, now) && from <= place < |was|
    ensures |now| == |was| && now[place] == was[place]
    ensures UnmarkedTo(was, c, from, place + 1, now[place := was[place].(pending := was[place].pending - {c})])
  {
  }

  lemma UnmarkedAll(was: seq<Node>, c: Consumer, from: nat, now: seq<Node>)
    requires UnmarkedTo(was, c, from, |was|, now) && from <= |was|
    ensures now == was[..from] + ReleaseNodes(was[from..], c)
  {
  }

  /** What c still has to finish from a place on, in bytes. */
  ghost function Left(nodes: seq<Node>, place: nat, c: Consumer): nat
    requires place <= |nodes|
  {
    ItemBytes(Items(nodes[place..], c))
  }

  lemma NothingLeft(nodes: seq<Node>, from: nat, c: Consumer)
    requires from <= |nodes|
    ensures Left(nodes, |nodes|, c) == 0 && Left(nodes, from, c) == ItemBytes(Items(nodes[from..], c))
  {
  }

  lemma LeftNext(nodes: seq<Node>, place: nat, c: Consumer)
    requires place < |nodes|
    ensures Left(nodes, place, c) == (if c in nodes[place].pending then |nodes[place].payload| else 0) + Left(nodes, place + 1, c)
  {
    var rest := nodes[place + 1..];
    assert nodes[place..][1..] == rest;
    var item := Item(nodes[place].seqNo, nodes[place].payload);
    assert ([item] + Items(rest, c))[1..] == Items(rest, c);
    assert [] + Items(rest, c) == Items(rest, c);
  }

  // ------------------------------------------------------------------ links

  lemma KeepsSelf(cells: seq<Cell>, contents: seq<Node>)
    requires |contents| == |cells|
    ensures Keeps(cells, contents, cells, contents)
  {
    forall i | 0 <= i < |cells| ensures Stems(cells, contents, cells[i], contents[i]) {}
  }

  /** A cell nobody waits for may go. */
  lemma KeepsCut(cells: seq<Cell>, links: seq<Cell?>, head: Cell?, tail: Cell?, contents: seq<Node>,
                 cells': seq<Cell>, contents': seq<Node>, place: nat)
    requires Linked(cells, links, head, tail) && Keeps(cells, contents, cells', contents')
    requires place < |cells'| == |contents'| && contents'[place].pending == {}
    ensures Keeps(cells, contents, Without(cells', place), Without(contents', place))
  {
    var less := Without(cells', place);
    assert Stems(cells, contents, cells'[place], contents'[place]);
    var k :| 0 <= k < |cells| && cells[k] == cells'[place] && contents[k] == contents'[place];
    LinkedApart(cells, links, head, tail, k);
    hide Linked;
    hide Stems;
    forall j | 0 <= j < |cells| && contents[j].pending != {} ensures cells[j] in less {
      var i :| 0 <= i < |cells'| && cells'[i] == cells[j];
      assert i != place;
      assert less[if i < place then i else i - 1] == cells[j];
    }
  }

  /** A sequence without the element at a place. */
  function Without<T>(s: seq<T>, place: nat): (r: seq<T>)
    requires place < |s|
    ensures |r| == |s| - 1 && forall i :: 0 <= i < |r| ==> r[i] == s[if i < place then i else i + 1]
  {
    s[..place] + s[place + 1..]
  }

  lemma LinkedAt(cells: seq<Cell>, nexts: seq<Cell?>, head: Cell?, tail: Cell?, place: nat)
    requires Linked(cells, nexts, head, tail) && place < |cells|
    ensures |nexts| == |cells| && nexts[place] == At(cells, place + 1)
  {
  }

  lemma LinkedOnce(cells: seq<Cell>, nexts: seq<Cell?>, head: Cell?, tail: Cell?, i: nat, j: nat)
    requires Linked(cells, nexts, head, tail) && i < |cells| && j < |cells|
    ensures cells[i] == cells[j] <==> i == j
  {
  }

  lemma LinkedApart(cells: seq<Cell>, nexts: seq<Cell?>, head: Cell?, tail: Cell?, place: nat)
    requires Linked(cells, nexts, head, tail) && place < |cells|
    ensures forall i :: 0 <= i < |cells| && i != place ==> cells[i] != cells[place]
  {
  }

  lemma PreviousApart(cells: seq<Cell>, nexts: seq<Cell?>, head: Cell?, tail: Cell?, place: nat)
    requires Linked(cells, nexts, head, tail) && place < |cells|
    ensures if place == 0 then At(cells, place - 1) == null
            else At(cells, place - 1) == cells[place - 1]
                 && forall i :: 0 <= i < |cells| && i != place - 1 ==> cells[i] != cells[place - 1]
  {
  }

  lemma LinkedEnds(cells: seq<Cell>, nexts: seq<Cell?>, head: Cell?, tail: Cell?, n: nat)
    requires Linked(cells, nexts, head, tail) && n == |cells|
    ensures head == At(cells, 0) && tail == At(cells, n - 1)
    ensures if n == 0 then tail == null else tail == cells[n - 1]
    ensures n > 0 ==> forall i :: 0 <= i < n - 1 ==> cells[i] != cells[n - 1]
  {
  }

  lemma LinkMore(cells: seq<Cell>, nexts: seq<Cell?>, head: Cell?, tail: Cell?, cell: Cell)
    requires Linked(cells, nexts, head, tail) && |nexts| == |cells| && cell !in cells
    ensures Linked(cells + [cell], (if cells == [] then [] else nexts[|cells| - 1 := cell]) + [null],
                   if cells == [] then cell else head, cell)
  {
  }

  /** Linking around the cell at a place leaves the others linked as before. */
  lemma CutLinks(cells: seq<Cell>, nexts: seq<Cell?>, head: Cell?, tail: Cell?, place: nat)
    requires Linked(cells, nexts, head, tail) && |nexts| == |cells| && place < |cells|
    ensures nexts[place] == At(Without(cells, place), place)
    ensures Linked(Without(cells, place), Without(if place == 0 then nexts else nexts[place - 1 := nexts[place]], place),
                   if place == 0 then nexts[0] else head, if tail == cells[place] then At(cells, place - 1) else tail)
  {
  }
}
