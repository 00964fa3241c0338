/**
 Row deltas of the live screen: how the server describes the current rows as copies of rows
 the client already holds plus replacements, and how the client applies that description.
 */
module LiveDelta {

  type Hash = nat

  /** `count` rows of the base, from `source` on, belong at `destination`. */
  datatype RowCopy = RowCopy(source: nat, destination: nat, count: nat)

  datatype Delta = Delta(copies: seq<RowCopy>, replaced: seq<nat>)

  datatype Option<+T> = None | Some(value: T)

  // ------------------------------------------------------------------ what the server sends

  /** The first row with this hash. */
  function FirstRow(base: seq<Hash>, hash: Hash): (r: Option<nat>)
    ensures r.None? <==> hash !in base
    ensures r.Some? ==> r.value < |base| && base[r.value] == hash && hash !in base[..r.value]
  {
    if base == [] then None
    else if base[|base| - 1] == hash && hash !in base[..|base| - 1] then Some(|base| - 1)
    else
      var r := FirstRow(base[..|base| - 1], hash);
      assert base == base[..|base| - 1] + [base[|base| - 1]];
      assert r.Some? ==> base[..|base| - 1][..r.value] == base[..r.value];
      r
  }

  /** The base row that row d of the current screen is taken from. */
  function Source(base: seq<Hash>, current: seq<Hash>, d: nat): (r: Option<nat>)
    requires d < |base| == |current|
    ensures r.None? <==> current[d] !in base
    ensures r.Some? ==> r.value < |base| && base[r.value] == current[d]
    ensures base[d] == current[d] ==> r == Some(d)
  {
    if base[d] == current[d] then Some(d) else FirstRow(base, current[d])
  }

  /** The last copy goes on with this row. */
  predicate Continues(copies: seq<RowCopy>, source: nat, destination: nat) {
    && copies != []
    && var last := copies[|copies| - 1];
       last.source + last.count == source && last.destination + last.count == destination
  }

  function Extended(copies: seq<RowCopy>, source: nat, destination: nat): seq<RowCopy> {
    if Continues(copies, source, destination) then
      copies[|copies| - 1 := copies[|copies| - 1].(count := copies[|copies| - 1].count + 1)]
    else copies + [RowCopy(source, destination, 1)]
  }

  /** One more row. */
  function WithRow(before: Delta, base: seq<Hash>, current: seq<Hash>, d: nat): Delta
    requires d < |base| == |current|
  {
    match Source(base, current, d)
    case None => before.(replaced := before.replaced + [d])
    case Some(source) =>
      if source == d then before else before.(copies := Extended(before.copies, source, d))
  }

  /** The delta of the first n rows. */
  function DeltaTo(base: seq<Hash>, current: seq<Hash>, n: nat): Delta
    requires n <= |base| == |current|
  {
    if n == 0 then Delta([], []) else WithRow(DeltaTo(base, current, n - 1), base, current, n - 1)
  }

  function DeltaOf(base: seq<Hash>, current: seq<Hash>): Delta
    requires |base| == |current|
  {
    DeltaTo(base, current, |current|)
  }

  /** nativeScreenDeltaRows. `base` is None when the session has no baseline. */
  method DeltaRows(base: Option<seq<Hash>>, current: seq<Hash>) returns (delta: Delta, ok: bool)
    ensures ok <==> base.Some? && |base.value| == |current|
    ensures ok ==> delta == DeltaOf(base.value, current)
  {
    if base.None? || |base.value| != |current| {
      return Delta([], []), false;
    }
    var firstRow := IndexRows(base.value);
    var sources := FindSources(base.value, current, firstRow);
    delta := GroupRows(base.value, current, sources);
    ok := true;
  }

  /** The first row of every hash. */
  method IndexRows(rows: seq<Hash>) returns (firstRow: map<Hash, nat>)
    ensures forall h :: h in firstRow <==> h in rows
    ensures forall h :: h in firstRow ==> FirstRow(rows, h) == Some(firstRow[h])
  {
    firstRow := map[];
    for source := 0 to |rows|
      invariant forall h :: h in firstRow <==> h in rows[..source]
      invariant forall h :: h in firstRow ==> FirstRow(rows, h) == Some(firstRow[h])
    {
      var hash := rows[source];
      assert rows[..source + 1] == rows[..source] + [hash];
      if hash !in firstRow {
        firstRow := firstRow[hash := source];
        FirstRowIs(rows, source);
      }
    }
    assert rows[..|rows|] == rows;
  }

  method FindSources(rows: seq<Hash>, current: seq<Hash>, firstRow: map<Hash, nat>) returns (sources: array<Option<nat>>)
    requires |rows| == |current|
    requires forall h :: h in firstRow <==> h in rows
    requires forall h :: h in firstRow ==> FirstRow(rows, h) == Some(firstRow[h])
    ensures sources.Length == |current|
    ensures forall d :: 0 <= d < |current| ==> sources[d] == Source(rows, current, d)
  {
    sources := new Option<nat>[|current|];
    for destination := 0 to |current|
      invariant forall d :: 0 <= d < destination ==> sources[d] == Source(rows, current, d)
    {
      var hash := current[destination];
      if rows[destination] == hash {
        sources[destination] := Some(destination);
      } else if hash in firstRow {
        sources[destination] := Some(firstRow[hash]);
      } else {
        sources[destination] := None;
      }
    }
  }

  /** Neighbouring rows with neighbouring sources become one copy. */
  method GroupRows(rows: seq<Hash>, current: seq<Hash>, sources: array<Option<nat>>) returns (delta: Delta)
    requires |rows| == |current| == sources.Length
    requires forall d :: 0 <= d < |current| ==> sources[d] == Source(rows, current, d)
    ensures delta == DeltaOf(rows, current)
  {
    var copies: seq<RowCopy>, replaced: seq<nat> := [], [];
    for destination := 0 to |current|
      invariant Delta(copies, replaced) == DeltaTo(rows, current, destination)
    {
      var source := sources[destination];
      if source.None? {
        replaced := replaced + [destination];
      } else if source.value != destination {
        if Continues(copies, source.value, destination) {
          var last := copies[|copies| - 1];
          copies := copies[|copies| - 1 := last.(count := last.count + 1)];
        } else {
          copies := copies + [RowCopy(source.value, destination, 1)];
        }
      }
    }
    delta := Delta(copies, replaced);
  }

  lemma FirstRowIs(rows: seq<Hash>, k: nat)
    requires k < |rows| && rows[k] !in rows[..k]
    ensures FirstRow(rows, rows[k]) == Some(k)
  {
    var r := FirstRow(rows, rows[k]);
  }

  // ------------------------------------------------------------------ what a delta says

  predicate Inside(c: RowCopy, d: int) {
    c.destination <= d < c.destination + c.count
  }

  ghost predicate Copied(copies: seq<RowCopy>, d: int) {
    exists k :: 0 <= k < |copies| && Inside(copies[k], d)
  }

  /** Copies stay inside the screen and are listed by destination, without overlap, up to row n. */
  ghost predicate WellPlaced(copies: seq<RowCopy>, height: nat, n: nat) {
    && (forall k :: 0 <= k < |copies| ==>
          && copies[k].count > 0
          && copies[k].source + copies[k].count <= height
          && copies[k].destination + copies[k].count <= n)
    && (forall j, k :: 0 <= j < k < |copies| ==>
          copies[j].destination + copies[j].count <= copies[k].destination)
  }

  /** No two neighbouring copies could have been one. */
  ghost predicate Compact(copies: seq<RowCopy>) {
    forall k :: 0 < k < |copies| ==>
      !(copies[k - 1].source + copies[k - 1].count == copies[k].source
        && copies[k - 1].destination + copies[k - 1].count == copies[k].destination)
  }

  ghost predicate Increasing(rows: seq<nat>, n: nat) {
    && (forall i :: 0 <= i < |rows| ==> rows[i] < n)
    && (forall i, j :: 0 <= i < j < |rows| ==> rows[i] < rows[j])
  }

  /** A copy of the base row that has the current row's hash. */
  ghost predicate TakesFrom(c: RowCopy, base: seq<Hash>, current: seq<Hash>, d: nat)
    requires d < |base| == |current| && Inside(c, d)
  {
    var s := c.source + (d - c.destination);
    s < |base| && base[s] == current[d]
  }

  /** What the delta does with row d: keep it, copy it from an equal row, or replace it. */
  ghost predicate Explains(delta: Delta, base: seq<Hash>, current: seq<Hash>, d: nat)
    requires d < |base| == |current|
  {
    && (d in delta.replaced <==> current[d] !in base)
    && (Copied(delta.copies, d) <==> current[d] in base && base[d] != current[d])
    && (forall k :: 0 <= k < |delta.copies| && Inside(delta.copies[k], d) ==>
          TakesFrom(delta.copies[k], base, current, d))
  }

  ghost predicate GoodDelta(delta: Delta, base: seq<Hash>, current: seq<Hash>, n: nat)
    requires n <= |base| == |current|
  {
    && WellPlaced(delta.copies, |base|, n)
    && Compact(delta.copies)
    && Increasing(delta.replaced, n)
    && (forall d :: 0 <= d < n ==> Explains(delta, base, current, d))
  }

  lemma CopyPlaced(copies: seq<RowCopy>, height: nat, n: nat, source: nat, b: seq<RowCopy>)
    requires WellPlaced(copies, height, n) && n < height && source < height && b == Extended(copies, source, n)
    ensures WellPlaced(b, height, n + 1)
    ensures b != [] && Inside(b[|b| - 1], n) && b[|b| - 1].source + (n - b[|b| - 1].destination) == source
    ensures forall k :: 0 <= k < |b| - 1 ==> !Inside(b[k], n)
  {
    var m := |b| - 1;
    assert forall k :: 0 <= k < m ==> b[k] == copies[k];
    if Continues(copies, source, n) {
      assert b[m].destination == copies[m].destination && b[m].source == copies[m].source;
      assert b[m].count == copies[m].count + 1;
    } else {
      assert b[m] == RowCopy(source, n, 1);
    }
  }

  lemma CopyMerged(copies: seq<RowCopy>, n: nat, source: nat, b: seq<RowCopy>)
    requires Compact(copies) && b == Extended(copies, source, n)
    ensures Compact(b)
  {
    assert forall k :: 0 <= k < |b| - 1 ==> b[k] == copies[k];
  }

  lemma CopyExplains(delta: Delta, base: seq<Hash>, current: seq<Hash>, n: nat, source: nat, delta': Delta, d: nat)
    requires d < n < |base| == |current| && Explains(delta, base, current, d)
    requires WellPlaced(delta.copies, |base|, n)
    requires delta' == delta.(copies := Extended(delta.copies, source, n))
    ensures Explains(delta', base, current, d)
  {
    var a, b := delta.copies, delta'.copies;
    SameCopied(a, source, n, d);
    forall k | 0 <= k < |b| && Inside(b[k], d) ensures TakesFrom(b[k], base, current, d) {
      assert k < |a| && Inside(a[k], d) && TakesFrom(a[k], base, current, d);
    }
  }

  lemma CopyGrows(delta: Delta, base: seq<Hash>, current: seq<Hash>, n: nat, source: nat, delta': Delta)
    requires n < |base| == |current| && GoodDelta(delta, base, current, n)
    requires source < |base| && base[source] == current[n] && base[n] != current[n]
    requires delta' == delta.(copies := Extended(delta.copies, source, n))
    ensures GoodDelta(delta', base, current, n + 1)
  {
    hide WellPlaced;
    hide Compact;
    hide Extended;
    var b := delta'.copies;
    CopyPlaced(delta.copies, |base|, n, source, b);
    CopyMerged(delta.copies, n, source, b);
    forall d | 0 <= d < n ensures Explains(delta', base, current, d) {
      assert Explains(delta, base, current, d);
      hide Explains;
      CopyExplains(delta, base, current, n, source, delta', d);
    }
    assert Explains(delta', base, current, n) by {
      assert Inside(b[|b| - 1], n) && TakesFrom(b[|b| - 1], base, current, n);
    }
  }

  lemma SameCopied(a: seq<RowCopy>, source: nat, n: nat, d: nat)
    requires d < n
    ensures Copied(Extended(a, source, n), d) <==> Copied(a, d)
  {
    var b := Extended(a, source, n);
    if Copied(a, d) {
      var k :| 0 <= k < |a| && Inside(a[k], d);
      assert Inside(b[k], d);
    }
    if Copied(b, d) {
      var k :| 0 <= k < |b| && Inside(b[k], d);
      assert Inside(a[k], d);
    }
  }

  lemma RowReplaced(delta: Delta, base: seq<Hash>, current: seq<Hash>, n: nat, delta': Delta)
    requires n < |base| == |current| && GoodDelta(delta, base, current, n)
    requires current[n] !in base && delta' == delta.(replaced := delta.replaced + [n])
    ensures GoodDelta(delta', base, current, n + 1)
  {
    forall d | 0 <= d <= n ensures Explains(delta', base, current, d) {
      if d < n { assert Explains(delta, base, current, d); }
    }
  }

  lemma RowKept(delta: Delta, base: seq<Hash>, current: seq<Hash>, n: nat)
    requires n < |base| == |current| && GoodDelta(delta, base, current, n) && base[n] == current[n]
    ensures GoodDelta(delta, base, current, n + 1)
  {
    assert Explains(delta, base, current, n);
  }

  lemma RowGood(before: Delta, base: seq<Hash>, current: seq<Hash>, n: nat)
    requires n < |base| == |current| && GoodDelta(before, base, current, n)
    ensures GoodDelta(WithRow(before, base, current, n), base, current, n + 1)
  {
    hide GoodDelta;
    hide Extended;
    hide FirstRow;
    var source, after := Source(base, current, n), WithRow(before, base, current, n);
    if source.None? {
      RowReplaced(before, base, current, n, after);
    } else if base[n] == current[n] {
      RowKept(before, base, current, n);
    } else {
      CopyGrows(before, base, current, n, source.value, after);
    }
  }

  lemma NoRows(base: seq<Hash>, current: seq<Hash>)
    requires |base| == |current|
    ensures GoodDelta(Delta([], []), base, current, 0)
  {
    hide Explains;
  }

  /** Every row is kept, in exactly one copy of an equal row, or replaced. */
  lemma {:induction false} DeltaGood(base: seq<Hash>, current: seq<Hash>, n: nat)
    requires n <= |base| == |current|
    ensures GoodDelta(DeltaTo(base, current, n), base, current, n)
  {
    hide GoodDelta;
    hide WithRow;
    if n == 0 {
      NoRows(base, current);
    } else {
      DeltaGood(base, current, n - 1);
      RowGood(DeltaTo(base, current, n - 1), base, current, n - 1);
    }
  }

  // ------------------------------------------------------------------ what the client does

  predicate Fits(c: RowCopy, n: nat) {
    c.count > 0 && c.source + c.count <= n && c.destination + c.count <= n
  }

  function CopyOver<R>(rows: seq<R>, base: seq<R>, c: RowCopy): (r: seq<R>)
    requires |rows| == |base| && Fits(c, |base|)
    ensures |r| == |rows|
    ensures forall d :: 0 <= d < |rows| ==> r[d] == if Inside(c, d) then base[c.source + (d - c.destination)] else rows[d]
  {
    seq(|rows|, d requires 0 <= d < |rows| => if Inside(c, d) then base[c.source + (d - c.destination)] else rows[d])
  }

  /** Every copy reads the held rows, not rows copied before it. */
  function CopyAll<R>(base: seq<R>, copies: seq<RowCopy>): (r: seq<R>)
    requires forall k :: 0 <= k < |copies| ==> Fits(copies[k], |base|)
    ensures |r| == |base|
  {
    if copies == [] then base else CopyOver(CopyAll(base, copies[..|copies| - 1]), base, copies[|copies| - 1])
  }

  function PutAll<R>(rows: seq<R>, at: seq<nat>, cells: seq<R>): (r: seq<R>)
    requires |at| == |cells| && forall i :: 0 <= i < |at| ==> at[i] < |rows|
    ensures |r| == |rows|
  {
    if at == [] then rows
    else PutAll(rows, at[..|at| - 1], cells[..|cells| - 1])[at[|at| - 1] := cells[|cells| - 1]]
  }

  ghost predicate Applicable<R>(base: seq<R>, copies: seq<RowCopy>, at: seq<nat>, cells: seq<R>) {
    && |at| == |cells|
    && (forall k :: 0 <= k < |copies| ==> Fits(copies[k], |base|))
    && (forall i :: 0 <= i < |at| ==> at[i] < |base|)
  }

  ghost function Applied<R>(base: seq<R>, copies: seq<RowCopy>, at: seq<nat>, cells: seq<R>): (r: seq<R>)
    requires Applicable(base, copies, at, cells)
    ensures |r| == |base|
  {
    PutAll(CopyAll(base, copies), at, cells)
  }

  /**
   mergeLiveSurfaceDelta on the rows, for an answer of the given height; None when the delta
   does not fit. A held screen with more rows is cut to that height.
   */
  method MergeRows<R(0)>(held: seq<R>, height: nat, copies: seq<RowCopy>, at: seq<nat>, cells: seq<R>)
    returns (merged: Option<seq<R>>)
    ensures merged.Some? <==> height <= |held| && Applicable(held[..height], copies, at, cells)
    ensures merged.Some? ==> merged.value == Applied(held[..height], copies, at, cells)
  {
    if |held| < height || |at| != |cells| {
      return None;
    }
    var rows := held[..height];
    ghost var base := rows;
    for k := 0 to |copies|
      invariant |rows| == height && base == held[..height]
      invariant forall j :: 0 <= j < k ==> Fits(copies[j], height)
      invariant rows == CopyAll(base, copies[..k])
    {
      var c := copies[k];
      if !Fits(c, height) {
        return None;
      }
      assert copies[..k + 1][..k] == copies[..k];
      ghost var before := rows;
      rows := CopyRows(held, height, rows, c);
      assert rows == CopyOver(before, base, c);
    }
    assert copies[..|copies|] == copies;
    ghost var copied := rows;
    for i := 0 to |at|
      invariant |rows| == height && forall j :: 0 <= j < i ==> at[j] < height
      invariant rows == PutAll(copied, at[..i], cells[..i])
    {
      if at[i] >= height {
        return None;
      }
      assert at[..i + 1][..i] == at[..i] && cells[..i + 1][..i] == cells[..i];
      rows := rows[at[i] := cells[i]];
    }
    assert at[..|at|] == at && cells[..|at|] == cells;
    return Some(rows);
  }

  /** One copy, row by row, from the held rows. */
  method CopyRows<R(0)>(held: seq<R>, height: nat, rows: seq<R>, c: RowCopy) returns (out: seq<R>)
    requires height <= |held| && |rows| == height && Fits(c, height)
    ensures out == CopyOver(rows, held[..height], c)
  {
    out := rows;
    for offset := 0 to c.count
      invariant |out| == height
      invariant forall d :: 0 <= d < height ==>
                  out[d] == if c.destination <= d < c.destination + offset
                            then held[c.source + (d - c.destination)] else rows[d]
    {
      out := out[c.destination + offset := held[c.source + offset]];
    }
    assert out == CopyOver(rows, held[..height], c);
  }

  // ------------------------------------------------------------------ the delta reproduces the screen

  function Hashes<R>(rows: seq<R>, hash: R -> Hash): (r: seq<Hash>)
    ensures |r| == |rows| && forall i :: 0 <= i < |r| ==> r[i] == hash(rows[i])
  {
    seq(|rows|, i requires 0 <= i < |rows| => hash(rows[i]))
  }

  function Pick<R>(rows: seq<R>, at: seq<nat>): (r: seq<R>)
    requires forall i :: 0 <= i < |at| ==> at[i] < |rows|
    ensures |r| == |at| && forall i :: 0 <= i < |r| ==> r[i] == rows[at[i]]
  {
    seq(|at|, i requires 0 <= i < |at| => rows[at[i]])
  }

  ghost predicate Injective<R(!new)>(hash: R -> Hash) {
    forall a, b :: hash(a) == hash(b) ==> a == b
  }

  lemma {:induction false} UncopiedRow<R>(base: seq<R>, copies: seq<RowCopy>, d: nat)
    requires forall k :: 0 <= k < |copies| ==> Fits(copies[k], |base|) && !Inside(copies[k], d)
    requires d < |base|
    ensures CopyAll(base, copies)[d] == base[d]
  {
    if copies != [] { UncopiedRow(base, copies[..|copies| - 1], d); }
  }

  lemma {:induction false} CopiedRow<R>(base: seq<R>, copies: seq<RowCopy>, d: nat, k: nat)
    requires forall j :: 0 <= j < |copies| ==> Fits(copies[j], |base|) && (j == k <==> Inside(copies[j], d))
    requires d < |base| && k < |copies| && Inside(copies[k], d)
    ensures CopyAll(base, copies)[d] == base[copies[k].source + (d - copies[k].destination)]
  {
    if k < |copies| - 1 { CopiedRow(base, copies[..|copies| - 1], d, k); }
  }

  /** In a well placed list of copies no row is in two. */
  lemma OneCopy(copies: seq<RowCopy>, height: nat, n: nat, d: nat, k: nat)
    requires WellPlaced(copies, height, n) && k < |copies| && Inside(copies[k], d)
    ensures forall j :: 0 <= j < |copies| ==> (j == k <==> Inside(copies[j], d))
  {
  }

  lemma {:induction false} PutRow<R>(rows: seq<R>, current: seq<R>, at: seq<nat>, d: nat)
    requires |rows| == |current| && d < |rows| && forall i :: 0 <= i < |at| ==> at[i] < |rows|
    ensures PutAll(rows, at, Pick(current, at))[d] == if d in at then current[d] else rows[d]
  {
    if at != [] {
      var init := at[..|at| - 1];
      PutRow(rows, current, init, d);
      assert Pick(current, at)[..|at| - 1] == Pick(current, init);
      assert at == init + [at[|at| - 1]];
    }
  }

  /** What the server sends for `current` against `base`, applied by a client that holds `held`. */
  ghost function Received<R>(held: seq<R>, base: seq<R>, current: seq<R>, hash: R -> Hash): (r: seq<R>)
    requires |held| == |base| == |current|
    ensures |r| == |held|
  {
    var delta := DeltaOf(Hashes(base, hash), Hashes(current, hash));
    DeltaFits(base, current, hash, held);
    Applied(held, delta.copies, delta.replaced, Pick(current, delta.replaced))
  }

  lemma DeltaFits<R>(base: seq<R>, current: seq<R>, hash: R -> Hash, held: seq<R>)
    requires |held| == |base| == |current|
    ensures var delta := DeltaOf(Hashes(base, hash), Hashes(current, hash));
            && (forall i :: 0 <= i < |delta.replaced| ==> delta.replaced[i] < |current|)
            && Applicable(held, delta.copies, delta.replaced, Pick(current, delta.replaced))
  {
    DeltaGood(Hashes(base, hash), Hashes(current, hash), |current|);
  }

  /** Where a row stands once all copies are made. */
  lemma CopiedFrom<R>(held: seq<R>, delta: Delta, bh: seq<Hash>, ch: seq<Hash>, d: nat) returns (s: nat)
    requires d < |held| == |bh| == |ch| && GoodDelta(delta, bh, ch, |held|)
    ensures s < |held| && (forall k :: 0 <= k < |delta.copies| ==> Fits(delta.copies[k], |held|))
    ensures CopyAll(held, delta.copies)[d] == held[s]
    ensures ch[d] in bh ==> bh[s] == ch[d]
    ensures bh[d] == ch[d] ==> s == d
  {
    hide CopyAll;
    assert Explains(delta, bh, ch, d);
    s := d;
    if Copied(delta.copies, d) {
      var k :| 0 <= k < |delta.copies| && Inside(delta.copies[k], d);
      assert TakesFrom(delta.copies[k], bh, ch, d);
      s := delta.copies[k].source + (d - delta.copies[k].destination);
      OneCopy(delta.copies, |held|, |held|, d, k);
      CopiedRow(held, delta.copies, d, k);
    } else {
      UncopiedRow(held, delta.copies, d);
    }
  }

  lemma ReplacedRows(delta: Delta, bh: seq<Hash>, ch: seq<Hash>, d: nat)
    requires d < |bh| == |ch| && GoodDelta(delta, bh, ch, |bh|)
    ensures d in delta.replaced <==> ch[d] !in bh
  {
    assert Explains(delta, bh, ch, d);
  }

  /** Where a received row comes from. */
  lemma ReceivedRow<R>(held: seq<R>, base: seq<R>, current: seq<R>, hash: R -> Hash, d: nat) returns (s: nat)
    requires d < |held| == |base| == |current|
    ensures s < |base|
    ensures if hash(current[d]) in Hashes(base, hash)
            then Received(held, base, current, hash)[d] == held[s] && hash(base[s]) == hash(current[d])
            else Received(held, base, current, hash)[d] == current[d]
    ensures hash(base[d]) == hash(current[d]) ==> s == d
  {
    hide GoodDelta;
    hide DeltaTo;
    hide CopyAll;
    hide PutAll;
    var bh, ch := Hashes(base, hash), Hashes(current, hash);
    var delta := DeltaOf(bh, ch);
    DeltaGood(bh, ch, |current|);
    DeltaFits(base, current, hash, held);
    s := CopiedFrom(held, delta, bh, ch, d);
    ReplacedRows(delta, bh, ch, d);
    PutRow(CopyAll(held, delta.copies), current, delta.replaced, d);
  }

  /** A client that holds the base ends with exactly the current rows. */
  lemma DeltaExact<R(!new)>(base: seq<R>, current: seq<R>, hash: R -> Hash)
    requires |base| == |current| && Injective(hash)
    ensures Received(base, base, current, hash) == current
  {
    forall d | 0 <= d < |base| ensures Received(base, base, current, hash)[d] == current[d] {
      var s := ReceivedRow(base, base, current, hash, d);
    }
  }

  /** Deltas are right for every screen to come exactly when the client holds the base. */
  lemma DeltaNeedsBase<R(!new)>(held: seq<R>, base: seq<R>, hash: R -> Hash)
    requires |held| == |base| && Injective(hash)
    ensures (forall current :: |current| == |base| ==> Received(held, base, current, hash) == current)
            <==> held == base
  {
    if held == base {
      forall current | |current| == |base| ensures Received(held, base, current, hash) == current {
        DeltaExact(base, current, hash);
      }
    } else {
      var d :| 0 <= d < |base| && held[d] != base[d];
      var s := ReceivedRow(held, base, base, hash, d);
      assert hash(base[d]) == Hashes(base, hash)[d];
      assert Received(held, base, base, hash) != base;
    }
  }

  /** Row fingerprints must not collide: deltas are right for all screens exactly then. */
  lemma DeltaNeedsInjective<R(!new)>(hash: R -> Hash)
    ensures (forall base: seq<R>, current: seq<R> :: |base| == |current| ==>
               Received(base, base, current, hash) == current)
            <==> Injective(hash)
  {
    if Injective(hash) {
      forall base: seq<R>, current: seq<R> | |base| == |current| ensures Received(base, base, current, hash) == current {
        DeltaExact(base, current, hash);
      }
    } else {
      var a, b :| hash(a) == hash(b) && a != b;
      var s := ReceivedRow([a], [a], [b], hash, 0);
      assert Hashes([a], hash)[0] == hash(a);
      assert Received([a], [a], [b], hash)[0] != [b][0];
    }
  }
}
