/**
 The per-session cache of screens a client may hold, and the byte counters of the session
 and of the server. A cached baseline is an object that polls can still pin after it left
 the cache, so `cached` is the heap of them and entries refer to it by place.
 */
module BaselineCache {
  import opened LiveDelta

  const MAX_ENTRIES: nat := 64
  const MAX_SESSION_BYTES: nat := 1048576
  const MAX_SERVER_BYTES: nat := 67108864
  const TTL: nat := 2000

  datatype Size = Size(cols: nat, rows: nat)

  /** Fingerprints of one frame of one terminal object. */
  datatype Baseline = Baseline(terminal: nat, revision: nat, generation: nat, size: Size, rowHashes: seq<Hash>, altScreen: bool)

  /** `expiresAt` is None for the zero time. */
  datatype Cached = Cached(screen: Baseline, bytes: nat, pins: nat, expiresAt: Option<int>)

  datatype Entry = Entry(confirmed: Option<nat>, offered: Option<nat>)

  /** `holders` are the polls that pinned a baseline and have not released it yet. */
  datatype Session = Session(entries: map<string, Entry>, cached: seq<Cached>, bytes: int, closed: bool, holders: multiset<nat>)

  /** One session and the server's counter. */
  datatype Books = Books(session: Session, server: int)

  const NewSession: Session := Session(map[], [], 0, false, multiset{})

  function Weight(screen: Baseline): nat {
    8 * |screen.rowHashes| + 64
  }

  // ------------------------------------------------------------------ operations

  function WithCached(b: Books, i: nat, c: Cached): Books
    requires i < |b.session.cached|
  {
    b.(session := b.session.(cached := b.session.cached[i := c]))
  }

  function WithEntry(b: Books, t: string, e: Entry): Books {
    b.(session := b.session.(entries := b.session.entries[t := e]))
  }

  /** dropCachedLiveScreenBaselineLocked */
  function Drop(b: Books, slot: Option<nat>): Books {
    if slot.None? || slot.value >= |b.session.cached| || b.session.cached[slot.value].bytes == 0 then b
    else
      var c := b.session.cached[slot.value];
      var left := b.session.bytes - c.bytes;
      var s := b.session.(bytes := if left < 0 then 0 else left,
                          cached := b.session.cached[slot.value := c.(bytes := 0)]);
      Books(s, b.server - c.bytes)
  }

  /** cachedLiveScreenBaselineExpired */
  predicate Expired(s: Session, slot: Option<nat>, now: int) {
    && slot.Some? && slot.value < |s.cached|
    && var c := s.cached[slot.value];
       c.pins == 0 && c.expiresAt.Some? && now >= c.expiresAt.value
  }

  function DropConfirmed(b: Books, t: string): Books
    requires t in b.session.entries
  {
    var e := b.session.entries[t];
    WithEntry(Drop(b, e.confirmed), t, e.(confirmed := None))
  }

  function DropOffered(b: Books, t: string): Books
    requires t in b.session.entries
  {
    var e := b.session.entries[t];
    WithEntry(Drop(b, e.offered), t, e.(offered := None))
  }

  function DeleteEmpty(b: Books, t: string): Books
    requires t in b.session.entries
  {
    if b.session.entries[t] == Entry(None, None)
    then b.(session := b.session.(entries := b.session.entries - {t})) else b
  }

  /** One entry's turn in pruneLiveScreenBaselinesLocked. */
  function PruneOne(b: Books, t: string, now: int): Books {
    if t !in b.session.entries then b
    else
      var b1 := if Expired(b.session, b.session.entries[t].confirmed, now) then DropConfirmed(b, t) else b;
      var b2 := if Expired(b1.session, b1.session.entries[t].offered, now) then DropOffered(b1, t) else b1;
      DeleteEmpty(b2, t)
  }

  /** Entries are visited in some order; `keys` is that order. */
  function Prune(b: Books, keys: seq<string>, now: int): Books
    decreases |keys|
  {
    if keys == [] then b else Prune(PruneOne(b, keys[0], now), keys[1..], now)
  }

  datatype Acquired = Acquired(books: Books, held: Option<nat>)

  function Pin(b: Books, i: nat): Books
    requires i < |b.session.cached|
  {
    var c := b.session.cached[i];
    var b' := WithCached(b, i, c.(pins := c.pins + 1, expiresAt := None));
    b'.(session := b'.session.(holders := b'.session.holders + multiset{i}))
  }

  /** A client that reports the offered revision makes the offer its confirmed frame. */
  function Promote(b: Books, t: string, observed: nat): (r: Option<Books>)
    requires t in b.session.entries
  {
    var s, e := b.session, b.session.entries[t];
    if e.offered.Some? && e.offered.value < |s.cached| && s.cached[e.offered.value].screen.revision == observed then
      if e.confirmed.Some? && e.confirmed.value < |s.cached| && s.cached[e.confirmed.value].pins > 0 then None
      else Some(WithEntry(Drop(b, e.confirmed), t, Entry(e.offered, None)))
    else Some(b)
  }

  /** acquireLiveScreenBaseline: the place of the baseline the poll now pins, if any. */
  function Acquire(b: Books, t: string, observed: nat, keys: seq<string>, now: int): Acquired {
    if t == "" || observed == 0 then Acquired(b, None)
    else
      var b1 := Prune(b, keys, now);
      if t !in b1.session.entries then Acquired(b1, None)
      else
        match Promote(b1, t, observed)
        case None => Acquired(b1, None)
        case Some(b2) =>
          if t !in b2.session.entries then Acquired(b2, None)
          else
            var slot := b2.session.entries[t].confirmed;
            if slot.None? || slot.value >= |b2.session.cached|
               || b2.session.cached[slot.value].screen.revision != observed
            then Acquired(b2, None)
            else Acquired(Pin(b2, slot.value), slot)
  }

  /** The release a poll calls once for the baseline it pinned. */
  function Release(b: Books, i: nat, now: int): Books {
    if i >= |b.session.cached| || b.session.holders[i] == 0 then b
    else
      var c := b.session.cached[i];
      var pins: nat := if c.pins > 0 then c.pins - 1 else 0;
      var c' := c.(pins := pins, expiresAt := if pins == 0 then Some(now + TTL) else c.expiresAt);
      var b' := WithCached(b, i, c');
      b'.(session := b'.session.(holders := b'.session.holders - multiset{i}))
  }

  /** The room an offer finds for itself: its entry without the offer it replaces, or None to refuse. */
  function MakeRoom(b: Books, t: string, revision: nat): Option<Books> {
    var s := b.session;
    if t !in s.entries then
      if |s.entries| >= MAX_ENTRIES then None else Some(WithEntry(b, t, Entry(None, None)))
    else
      var slot := s.entries[t].offered;
      if slot.None? || slot.value >= |s.cached| then Some(b)
      else if s.cached[slot.value].pins > 0 || s.cached[slot.value].screen.revision > revision then None
      else Some(DropOffered(b, t))
  }

  function Insert(b: Books, t: string, screen: Baseline, now: int): Books
    requires t in b.session.entries
  {
    var s, w := b.session, Weight(screen);
    if s.bytes + w > MAX_SESSION_BYTES || b.server + w > MAX_SERVER_BYTES then
      if s.entries[t].confirmed.None? then b.(session := s.(entries := s.entries - {t})) else b
    else
      Books(s.(bytes := s.bytes + w, cached := s.cached + [Cached(screen, w, 0, Some(now + TTL))],
               entries := s.entries[t := s.entries[t].(offered := Some(|s.cached|))]),
            b.server + w)
  }

  /** offerLiveScreenBaseline */
  function Offer(b: Books, t: string, screen: Baseline, keys: seq<string>, now: int): Books {
    if t == "" || Weight(screen) > MAX_SESSION_BYTES || b.session.closed then b
    else
      var b1 := Prune(b, keys, now);
      match MakeRoom(b1, t, screen.revision)
      case None => b1
      case Some(b2) => if t in b2.session.entries then Insert(b2, t, screen, now) else b2
  }

  function ClearOne(b: Books, t: string): Books {
    if t !in b.session.entries then b
    else
      var b2 := DropOffered(DropConfirmed(b, t), t);
      b2.(session := b2.session.(entries := b2.session.entries - {t}))
  }

  function ClearOver(b: Books, keys: seq<string>): Books
    decreases |keys|
  {
    if keys == [] then b else ClearOver(ClearOne(b, keys[0]), keys[1..])
  }

  /** clearLiveScreenBaselines, with the order its loop visits the entries in. */
  function Clear(b: Books, keys: seq<string>): Books {
    ClearOver(b.(session := b.session.(closed := true)), keys)
  }

  // ------------------------------------------------------------------ the invariant

  function Total(cached: seq<Cached>): nat {
    if cached == [] then 0 else Total(cached[..|cached| - 1]) + cached[|cached| - 1].bytes
  }

  predicate Lists(e: Entry, i: nat) {
    e.confirmed == Some(i) || e.offered == Some(i)
  }

  ghost predicate Listed(s: Session, i: nat) {
    exists t :: t in s.entries && Lists(s.entries[t], i)
  }

  /** Slots point at cached baselines, and no baseline is in two slots. */
  ghost predicate Slots(s: Session) {
    && (forall t, i: nat :: t in s.entries && Lists(s.entries[t], i) ==> i < |s.cached|)
    && (forall t, u, i: nat :: t in s.entries && u in s.entries && Lists(s.entries[t], i) && Lists(s.entries[u], i) ==> t == u)
    && (forall t :: t in s.entries && s.entries[t].confirmed.Some? ==> s.entries[t].confirmed != s.entries[t].offered)
  }

  /** Exactly the listed baselines are charged, each with its weight. */
  ghost predicate Charged(s: Session) {
    forall i :: 0 <= i < |s.cached| ==> s.cached[i].bytes == if Listed(s, i) then Weight(s.cached[i].screen) else 0
  }

  /** Pins are the polls still holding on; an offer is never pinned. */
  ghost predicate Pinned(s: Session) {
    && (forall i :: 0 <= i < |s.cached| ==> s.cached[i].pins == s.holders[i])
    && (forall i :: i in s.holders ==> i < |s.cached|)
    && (forall t :: t in s.entries && s.entries[t].offered.Some? && s.entries[t].offered.value < |s.cached| ==>
          s.cached[s.entries[t].offered.value].pins == 0)
  }

  ghost predicate Core(s: Session) {
    && Slots(s) && Charged(s) && Pinned(s)
    && s.bytes == Total(s.cached) <= MAX_SESSION_BYTES
    && |s.entries| <= MAX_ENTRIES
  }

  ghost predicate NoEmpty(s: Session) {
    forall t :: t in s.entries ==> s.entries[t] != Entry(None, None)
  }

  ghost predicate SessionInv(s: Session) {
    Core(s) && NoEmpty(s) && (s.closed ==> s.entries == map[])
  }

  // ------------------------------------------------------------------ totals

  lemma {:induction false} TotalUpdate(cached: seq<Cached>, i: nat, c: Cached)
    requires i < |cached|
    ensures Total(cached[i := c]) == Total(cached) - cached[i].bytes + c.bytes
  {
    var init, n := cached[..|cached| - 1], |cached| - 1;
    if i < n {
      TotalUpdate(init, i, c);
      assert cached[i := c][..n] == init[i := c];
    } else {
      assert cached[i := c][..n] == init;
    }
  }

  lemma {:induction false} TotalAtLeast(cached: seq<Cached>, i: nat)
    requires i < |cached|
    ensures cached[i].bytes <= Total(cached)
  {
    if i < |cached| - 1 { TotalAtLeast(cached[..|cached| - 1], i); }
  }

  lemma TotalSnoc(cached: seq<Cached>, c: Cached)
    ensures Total(cached + [c]) == Total(cached) + c.bytes
  {
    assert (cached + [c])[..|cached|] == cached;
  }

  // ------------------------------------------------------------------ one slot at a time

  /** The server's counter moves exactly as the session's does. */
  ghost predicate Even(b: Books, b': Books) {
    b'.server - b.server == b'.session.bytes - b.session.bytes
  }

  /** e' lists what e lists, except i. */
  ghost predicate Without(e: Entry, e': Entry, i: nat) {
    && Lists(e, i) && !Lists(e', i)
    && (forall j: nat :: j != i ==> (Lists(e', j) <==> Lists(e, j)))
    && (e'.offered == None || e'.offered == e.offered)
    && (e'.confirmed.Some? ==> e'.confirmed != e'.offered)
  }

  lemma ListedWithout(s: Session, t: string, e': Entry, i: nat, s': Session)
    requires Slots(s) && t in s.entries && Without(s.entries[t], e', i) && s'.entries == s.entries[t := e']
    ensures !Listed(s', i) && forall j: nat :: j != i ==> (Listed(s', j) <==> Listed(s, j))
  {
    forall j: nat | j != i ensures Listed(s', j) <==> Listed(s, j) {
      if Listed(s, j) {
        var u :| u in s.entries && Lists(s.entries[u], j);
        assert Lists(s'.entries[u], j);
      }
      if Listed(s', j) {
        var u :| u in s'.entries && Lists(s'.entries[u], j);
        assert Lists(s.entries[u], j);
      }
    }
  }

  /** Taking one baseline out of its slot gives back exactly its bytes. */
  lemma Unlist(b: Books, t: string, e': Entry, i: nat) returns (b': Books)
    requires Core(b.session) && t in b.session.entries && Without(b.session.entries[t], e', i)
    ensures b' == WithEntry(Drop(b, Some(i)), t, e')
    ensures Core(b'.session) && Even(b, b')
  {
    hide Listed;
    hide Total;
    b' := WithEntry(Drop(b, Some(i)), t, e');
    var s, s' := b.session, b'.session;
    ListedWithout(s, t, e', i, s');
    assert Listed(s, i) by { Shows(s, t, i); }
    TotalUpdate(s.cached, i, s.cached[i].(bytes := 0));
    TotalAtLeast(s.cached, i);
    SlotsWithout(s, t, e', i, s');
    assert s'.entries.Keys == s.entries.Keys;
    assert |s'.entries| == |s'.entries.Keys| && |s.entries| == |s.entries.Keys|;
  }

  lemma Shows(s: Session, t: string, i: nat)
    requires t in s.entries && Lists(s.entries[t], i)
    ensures Listed(s, i)
  {
  }

  lemma SlotsWithout(s: Session, t: string, e': Entry, i: nat, s': Session)
    requires Slots(s) && t in s.entries && Without(s.entries[t], e', i)
    requires s'.entries == s.entries[t := e'] && |s'.cached| == |s.cached|
    ensures Slots(s')
  {
    assert forall u, j: nat :: u in s'.entries && Lists(s'.entries[u], j) ==> Lists(s.entries[u], j);
  }

  ghost predicate NoEmptyBut(s: Session, t: string) {
    forall u :: u in s.entries && u != t ==> s.entries[u] != Entry(None, None)
  }

  /** What an operation on an open or closed session keeps. */
  ghost predicate Keeps(b: Books, b': Books) {
    Core(b'.session) && Even(b, b') && b'.session.closed == b.session.closed
  }

  lemma DropConfirmedKeeps(b: Books, t: string)
    requires Core(b.session) && t in b.session.entries
    ensures Keeps(b, DropConfirmed(b, t)) && t in DropConfirmed(b, t).session.entries
    ensures NoEmptyBut(b.session, t) ==> NoEmptyBut(DropConfirmed(b, t).session, t)
    ensures DropConfirmed(b, t).session.entries[t] == b.session.entries[t].(confirmed := None)
  {
    hide Charged;
    hide Pinned;
    var e := b.session.entries[t];
    if e.confirmed.Some? {
      var b' := Unlist(b, t, e.(confirmed := None), e.confirmed.value);
    } else {
      assert b.session.entries[t := e] == b.session.entries;
    }
  }

  lemma DropOfferedKeeps(b: Books, t: string)
    requires Core(b.session) && t in b.session.entries
    ensures Keeps(b, DropOffered(b, t)) && t in DropOffered(b, t).session.entries
    ensures NoEmptyBut(b.session, t) ==> NoEmptyBut(DropOffered(b, t).session, t)
    ensures DropOffered(b, t).session.entries[t] == b.session.entries[t].(offered := None)
  {
    hide Charged;
    hide Pinned;
    var e := b.session.entries[t];
    if e.offered.Some? {
      var b' := Unlist(b, t, e.(offered := None), e.offered.value);
    } else {
      assert b.session.entries[t := e] == b.session.entries;
    }
  }

  /** An entry without baselines can go. */
  lemma Forget(b: Books, t: string, b': Books)
    requires Core(b.session) && t in b.session.entries && b.session.entries[t] == Entry(None, None)
    requires b' == b.(session := b.session.(entries := b.session.entries - {t}))
    ensures Keeps(b, b') && (NoEmptyBut(b.session, t) ==> NoEmpty(b'.session))
  {
    hide Total;
    hide Listed;
    var s, s' := b.session, b'.session;
    forall i: nat ensures Listed(s', i) <==> Listed(s, i) { SameListed(s, t, s', i); }
    assert s'.entries.Keys == s.entries.Keys - {t};
    assert |s'.entries.Keys| <= |s.entries.Keys|;
    assert |s'.entries| == |s'.entries.Keys| && |s.entries| == |s.entries.Keys|;
  }

  lemma SameListed(s: Session, t: string, s': Session, i: nat)
    requires t in s.entries && s.entries[t] == Entry(None, None) && s'.entries == s.entries - {t}
    ensures Listed(s', i) <==> Listed(s, i)
  {
    if Listed(s, i) {
      var u :| u in s.entries && Lists(s.entries[u], i);
      assert u != t && u in s'.entries && Lists(s'.entries[u], i);
    }
    if Listed(s', i) {
      var u :| u in s'.entries && Lists(s'.entries[u], i);
      assert u in s.entries && Lists(s.entries[u], i);
    }
  }

  lemma PruneOneKeeps(b: Books, t: string, now: int)
    requires Core(b.session) && NoEmpty(b.session)
    ensures Keeps(b, PruneOne(b, t, now)) && NoEmpty(PruneOne(b, t, now).session)
  {
    hide Core;
    if t in b.session.entries {
      DropConfirmedKeeps(b, t);
      var b1 := if Expired(b.session, b.session.entries[t].confirmed, now) then DropConfirmed(b, t) else b;
      DropOfferedKeeps(b1, t);
      var b2 := if Expired(b1.session, b1.session.entries[t].offered, now) then DropOffered(b1, t) else b1;
      if b2.session.entries[t] == Entry(None, None) {
        Forget(b2, t, DeleteEmpty(b2, t));
      }
    }
  }

  lemma {:induction false} PruneKeeps(b: Books, keys: seq<string>, now: int)
    requires Core(b.session) && NoEmpty(b.session)
    ensures Keeps(b, Prune(b, keys, now)) && NoEmpty(Prune(b, keys, now).session)
    decreases |keys|
  {
    hide Core;
    hide NoEmpty;
    hide PruneOne;
    if keys != [] {
      PruneOneKeeps(b, keys[0], now);
      PruneKeeps(PruneOne(b, keys[0], now), keys[1..], now);
    }
  }

  /** An offer that becomes the confirmed frame stays charged once. */
  lemma Relist(b: Books, t: string, b': Books)
    requires Core(b.session) && t in b.session.entries
    requires b.session.entries[t].confirmed.None? && b.session.entries[t].offered.Some?
    requires b' == WithEntry(b, t, Entry(b.session.entries[t].offered, None))
    ensures Keeps(b, b') && (NoEmptyBut(b.session, t) ==> NoEmpty(b'.session))
  {
    hide Total;
    hide Listed;
    var s, s' := b.session, b'.session;
    forall i: nat ensures Listed(s', i) <==> Listed(s, i) { SameRelisted(s, t, s', i); }
    assert s'.entries.Keys == s.entries.Keys;
    assert |s'.entries| == |s'.entries.Keys| && |s.entries| == |s.entries.Keys|;
    assert forall u, i: nat :: u in s.entries ==> (Lists(s'.entries[u], i) <==> Lists(s.entries[u], i));
  }

  lemma SameRelisted(s: Session, t: string, s': Session, i: nat)
    requires t in s.entries && s.entries[t].confirmed.None?
    requires s'.entries == s.entries[t := Entry(s.entries[t].offered, None)]
    ensures Listed(s', i) <==> Listed(s, i)
  {
    if Listed(s, i) {
      var u :| u in s.entries && Lists(s.entries[u], i);
      assert Lists(s'.entries[u], i);
    }
    if Listed(s', i) {
      var u :| u in s'.entries && Lists(s'.entries[u], i);
      assert Lists(s.entries[u], i);
    }
  }

  lemma PromoteKeeps(b: Books, t: string, observed: nat)
    requires Core(b.session) && NoEmpty(b.session) && t in b.session.entries
    ensures var r := Promote(b, t, observed);
            r.Some? ==> Keeps(b, r.value) && NoEmpty(r.value.session) && t in r.value.session.entries
  {
    hide Core;
    var r := Promote(b, t, observed);
    var e := b.session.entries[t];
    if r.Some? && r.value != b {
      DropConfirmedKeeps(b, t);
      var b1 := DropConfirmed(b, t);
      Relist(b1, t, WithEntry(b1, t, Entry(e.offered, None)));
      assert WithEntry(b1, t, Entry(e.offered, None)) == WithEntry(Drop(b, e.confirmed), t, Entry(e.offered, None));
    }
  }

  /** Pins change no slot and no byte. */
  lemma Repinned(b: Books, i: nat, c: Cached, holders: multiset<nat>, b': Books)
    requires Core(b.session) && i < |b.session.cached|
    requires c == b.session.cached[i].(pins := c.pins, expiresAt := c.expiresAt)
    requires b' == b.(session := b.session.(cached := b.session.cached[i := c], holders := holders))
    requires c.pins == holders[i] && forall j :: j != i ==> holders[j] == b.session.holders[j]
    requires c.pins > 0 ==> forall t :: t in b.session.entries ==> b.session.entries[t].offered != Some(i)
    ensures Keeps(b, b') && (NoEmpty(b.session) ==> NoEmpty(b'.session))
  {
    hide Total;
    hide Listed;
    TotalUpdate(b.session.cached, i, c);
    forall j: nat ensures Listed(b'.session, j) <==> Listed(b.session, j) {
      SameEntries(b.session, b'.session, j);
    }
  }

  lemma SameEntries(s: Session, s': Session, i: nat)
    requires s.entries == s'.entries
    ensures Listed(s, i) <==> Listed(s', i)
  {
  }

  lemma AcquireKeeps(b: Books, t: string, observed: nat, keys: seq<string>, now: int)
    requires Core(b.session) && NoEmpty(b.session)
    ensures var b' := Acquire(b, t, observed, keys, now).books; Keeps(b, b') && NoEmpty(b'.session)
  {
    hide Core;
    hide Prune;
    hide NoEmpty;
    PruneKeeps(b, keys, now);
    var b1 := Prune(b, keys, now);
    if t in b1.session.entries {
      PromoteKeeps(b1, t, observed);
      var r := Promote(b1, t, observed);
      if r.Some? {
        var slot := r.value.session.entries[t].confirmed;
        if slot.Some? && slot.value < |r.value.session.cached| {
          PinKeeps(r.value, t, slot.value);
        }
      }
    }
  }

  lemma PinKeeps(b: Books, t: string, i: nat)
    requires Core(b.session) && t in b.session.entries && b.session.entries[t].confirmed == Some(i)
    requires i < |b.session.cached|
    ensures Keeps(b, Pin(b, i)) && (NoEmpty(b.session) ==> NoEmpty(Pin(b, i).session))
  {
    hide Charged;
    var c := b.session.cached[i];
    forall u | u in b.session.entries ensures b.session.entries[u].offered != Some(i) {
      assert Lists(b.session.entries[t], i);
      assert b.session.entries[u].offered == Some(i) ==> Lists(b.session.entries[u], i);
    }
    Repinned(b, i, c.(pins := c.pins + 1, expiresAt := None), b.session.holders + multiset{i}, Pin(b, i));
  }

  lemma ReleaseKeeps(b: Books, i: nat, now: int)
    requires Core(b.session)
    ensures Keeps(b, Release(b, i, now)) && (NoEmpty(b.session) ==> NoEmpty(Release(b, i, now).session))
  {
    hide Charged;
    if i < |b.session.cached| && b.session.holders[i] > 0 {
      var c := b.session.cached[i];
      var b' := Release(b, i, now);
      Repinned(b, i, b'.session.cached[i], b.session.holders - multiset{i}, b');
    }
  }

  lemma MakeRoomKeeps(b: Books, t: string, revision: nat)
    requires Core(b.session) && NoEmpty(b.session)
    ensures var r := MakeRoom(b, t, revision);
            r.Some? ==> && Keeps(b, r.value) && NoEmptyBut(r.value.session, t)
                        && t in r.value.session.entries && r.value.session.entries[t].offered.None?
  {
    var r := MakeRoom(b, t, revision);
    if r.Some? {
      if t !in b.session.entries {
        AddEntry(b, t, r.value);
      } else {
        hide Charged;
        hide Pinned;
        if b.session.entries[t].offered.Some? { assert Lists(b.session.entries[t], b.session.entries[t].offered.value); }
        DropOfferedKeeps(b, t);
      }
    }
  }

  lemma AddEntry(b: Books, t: string, b': Books)
    requires Core(b.session) && t !in b.session.entries && |b.session.entries| < MAX_ENTRIES
    requires b' == WithEntry(b, t, Entry(None, None))
    ensures Keeps(b, b') && (NoEmpty(b.session) ==> NoEmptyBut(b'.session, t))
  {
    hide Total;
    hide Listed;
    hide Slots;
    var s, s' := b.session, b'.session;
    assert s'.entries - {t} == s.entries;
    forall i: nat ensures Listed(s', i) <==> Listed(s, i) { SameListed(s', t, s, i); }
    assert Slots(s') by { SlotsAdded(s, t, s'); }
    assert s'.entries.Keys == s.entries.Keys + {t};
    assert |s'.entries| == |s'.entries.Keys| && |s.entries| == |s.entries.Keys|;
  }

  lemma SlotsAdded(s: Session, t: string, s': Session)
    requires Slots(s) && t !in s.entries && s' == s.(entries := s.entries[t := Entry(None, None)])
    ensures Slots(s')
  {
    assert forall u, i: nat :: u in s'.entries && Lists(s'.entries[u], i) ==> u in s.entries && Lists(s.entries[u], i);
  }

  lemma ListedWith(s: Session, t: string, s': Session)
    requires Slots(s) && t in s.entries && s.entries[t].offered.None?
    requires s'.entries == s.entries[t := s.entries[t].(offered := Some(|s.cached|))]
    ensures Listed(s', |s.cached|) && forall i: nat :: i < |s.cached| ==> (Listed(s', i) <==> Listed(s, i))
  {
    assert Lists(s'.entries[t], |s.cached|);
    forall i: nat | i < |s.cached| ensures Listed(s', i) <==> Listed(s, i) {
      if Listed(s, i) {
        var u :| u in s.entries && Lists(s.entries[u], i);
        assert Lists(s'.entries[u], i);
      }
      if Listed(s', i) {
        var u :| u in s'.entries && Lists(s'.entries[u], i);
        assert Lists(s.entries[u], i);
      }
    }
  }

  lemma SlotsWith(s: Session, t: string, s': Session)
    requires Slots(s) && t in s.entries && s.entries[t].offered.None?
    requires s'.entries == s.entries[t := s.entries[t].(offered := Some(|s.cached|))] && |s'.cached| == |s.cached| + 1
    ensures Slots(s')
  {
    assert forall u, i: nat :: u in s'.entries && Lists(s'.entries[u], i) && i != |s.cached| ==> Lists(s.entries[u], i);
    assert forall u :: u in s.entries ==> !Lists(s.entries[u], |s.cached|);
  }

  lemma ChargedWith(s: Session, s': Session, c: Cached)
    requires Charged(s) && s'.cached == s.cached + [c] && c.bytes == Weight(c.screen)
    requires Listed(s', |s.cached|) && forall i: nat :: i < |s.cached| ==> (Listed(s', i) <==> Listed(s, i))
    ensures Charged(s')
  {
    hide Listed;
  }

  lemma PinnedWith(s: Session, t: string, s': Session, c: Cached)
    requires Pinned(s) && Slots(s) && t in s.entries && c.pins == 0
    requires s'.cached == s.cached + [c] && s'.holders == s.holders
    requires s'.entries == s.entries[t := s.entries[t].(offered := Some(|s.cached|))]
    ensures Pinned(s')
  {
    forall u | u in s'.entries && s'.entries[u].offered.Some? && s'.entries[u].offered.value < |s'.cached|
      ensures s'.cached[s'.entries[u].offered.value].pins == 0
    {
      if u != t {
        assert Lists(s.entries[u], s.entries[u].offered.value);
      }
    }
    assert |s.cached| !in s.holders;
  }

  lemma InsertedCore(s: Session, t: string, c: Cached, s': Session)
    requires Core(s) && t in s.entries && s.entries[t].offered.None?
    requires c.bytes == Weight(c.screen) && c.pins == 0 && s.bytes + c.bytes <= MAX_SESSION_BYTES
    requires s' == s.(bytes := s.bytes + c.bytes, cached := s.cached + [c],
                      entries := s.entries[t := s.entries[t].(offered := Some(|s.cached|))])
    ensures Core(s')
  {
    hide Total;
    hide Listed;
    hide Slots;
    hide Charged;
    hide Pinned;
    ListedWith(s, t, s');
    SlotsWith(s, t, s');
    ChargedWith(s, s', c);
    PinnedWith(s, t, s', c);
    TotalSnoc(s.cached, c);
    assert s'.entries.Keys == s.entries.Keys;
    assert |s'.entries| == |s'.entries.Keys| && |s.entries| == |s.entries.Keys|;
  }

  lemma InsertKeeps(b: Books, t: string, screen: Baseline, now: int)
    requires Core(b.session) && NoEmptyBut(b.session, t)
    requires t in b.session.entries && b.session.entries[t].offered.None?
    ensures Keeps(b, Insert(b, t, screen, now)) && NoEmpty(Insert(b, t, screen, now).session)
  {
    hide Core;
    var s, b' := b.session, Insert(b, t, screen, now);
    if s.bytes + Weight(screen) > MAX_SESSION_BYTES || b.server + Weight(screen) > MAX_SERVER_BYTES {
      if s.entries[t].confirmed.None? { Forget(b, t, b'); }
    } else {
      InsertedCore(s, t, Cached(screen, Weight(screen), 0, Some(now + TTL)), b'.session);
    }
  }

  lemma OfferKeeps(b: Books, t: string, screen: Baseline, keys: seq<string>, now: int)
    requires Core(b.session) && NoEmpty(b.session)
    ensures var b' := Offer(b, t, screen, keys, now); Keeps(b, b') && NoEmpty(b'.session)
  {
    hide Core;
    hide Prune;
    hide MakeRoom;
    hide Insert;
    hide NoEmpty;
    hide NoEmptyBut;
    PruneKeeps(b, keys, now);
    var b1 := Prune(b, keys, now);
    MakeRoomKeeps(b1, t, screen.revision);
    var r := MakeRoom(b1, t, screen.revision);
    if r.Some? { InsertKeeps(r.value, t, screen, now); }
  }

  lemma ClearOneKeeps(b: Books, t: string)
    requires Core(b.session) && NoEmpty(b.session)
    ensures Keeps(b, ClearOne(b, t)) && NoEmpty(ClearOne(b, t).session)
    ensures ClearOne(b, t).session.entries == b.session.entries - {t}
  {
    hide Core;
    if t in b.session.entries {
      DropConfirmedKeeps(b, t);
      var b1 := DropConfirmed(b, t);
      DropOfferedKeeps(b1, t);
      var b2 := DropOffered(b1, t);
      Forget(b2, t, ClearOne(b, t));
    }
  }

  lemma {:induction false} ClearOverKeeps(b: Books, keys: seq<string>)
    requires Core(b.session) && NoEmpty(b.session)
    ensures Keeps(b, ClearOver(b, keys)) && NoEmpty(ClearOver(b, keys).session)
    ensures forall t :: t in ClearOver(b, keys).session.entries ==> t in b.session.entries && t !in keys
    decreases |keys|
  {
    hide Core;
    hide NoEmpty;
    hide ClearOne;
    if keys != [] {
      ClearOneKeeps(b, keys[0]);
      ClearOverKeeps(ClearOne(b, keys[0]), keys[1..]);
      assert forall t :: t in keys ==> t == keys[0] || t in keys[1..];
    }
  }

  // ------------------------------------------------------------------ one session's steps

  /** One critical section of one session. */
  datatype Action =
    | Poll(t: string, observed: nat, keys: seq<string>, now: int)
    | Done(i: nat, now: int)
    | Respond(t: string, screen: Baseline, keys: seq<string>, now: int)
    | Expire(keys: seq<string>, now: int)
    | Teardown(keys: seq<string>)

  function Apply(b: Books, a: Action): Books {
    match a
    case Poll(t, observed, keys, now) => Acquire(b, t, observed, keys, now).books
    case Done(i, now) => Release(b, i, now)
    case Respond(t, screen, keys, now) => Offer(b, t, screen, keys, now)
    case Expire(keys, now) => if b.session.closed then b else Prune(b, keys, now)
    case Teardown(keys) => if forall t :: t in b.session.entries ==> t in keys then Clear(b, keys) else b
  }

  /** The server's counter never grows past its limit: only an insert adds, and it looks first. */
  ghost predicate Within(b: Books, b': Books) {
    b.server <= MAX_SERVER_BYTES ==> b'.server <= MAX_SERVER_BYTES
  }

  lemma DropLowers(b: Books, slot: Option<nat>)
    ensures Drop(b, slot).server <= b.server
  {
  }

  lemma {:induction false} PruneLowers(b: Books, keys: seq<string>, now: int)
    ensures Prune(b, keys, now).server <= b.server
    decreases |keys|
  {
    hide Drop;
    if keys != [] {
      var t := keys[0];
      if t in b.session.entries {
        DropLowers(b, b.session.entries[t].confirmed);
        var b1 := if Expired(b.session, b.session.entries[t].confirmed, now) then DropConfirmed(b, t) else b;
        DropLowers(b1, b1.session.entries[t].offered);
      }
      PruneLowers(PruneOne(b, t, now), keys[1..], now);
    }
  }

  lemma {:induction false} ClearLowers(b: Books, keys: seq<string>)
    ensures ClearOver(b, keys).server <= b.server
    decreases |keys|
  {
    hide Drop;
    if keys != [] {
      var t := keys[0];
      if t in b.session.entries {
        DropLowers(b, b.session.entries[t].confirmed);
        DropLowers(DropConfirmed(b, t), DropConfirmed(b, t).session.entries[t].offered);
      }
      ClearLowers(ClearOne(b, t), keys[1..]);
    }
  }

  lemma OfferWithin(b: Books, t: string, screen: Baseline, keys: seq<string>, now: int)
    ensures Within(b, Offer(b, t, screen, keys, now))
  {
    hide Prune;
    hide Drop;
    PruneLowers(b, keys, now);
    var b1 := Prune(b, keys, now);
    if t in b1.session.entries { DropLowers(b1, b1.session.entries[t].offered); }
  }

  lemma AcquireWithin(b: Books, t: string, observed: nat, keys: seq<string>, now: int)
    ensures Within(b, Acquire(b, t, observed, keys, now).books)
  {
    hide Prune;
    hide Drop;
    PruneLowers(b, keys, now);
    var b1 := Prune(b, keys, now);
    if t in b1.session.entries { DropLowers(b1, b1.session.entries[t].confirmed); }
  }

  lemma ApplyKeeps(b: Books, a: Action)
    requires SessionInv(b.session)
    ensures SessionInv(Apply(b, a).session) && Even(b, Apply(b, a)) && Within(b, Apply(b, a))
  {
    hide Core;
    hide NoEmpty;
    hide Prune;
    match a
    case Poll(t, observed, keys, now) =>
      AcquireKeeps(b, t, observed, keys, now);
      AcquireWithin(b, t, observed, keys, now);
      if b.session.closed { PruneEmpty(b, keys, now); }
    case Done(i, now) => ReleaseKeeps(b, i, now);
    case Respond(t, screen, keys, now) =>
      OfferKeeps(b, t, screen, keys, now);
      OfferWithin(b, t, screen, keys, now);
    case Expire(keys, now) =>
      PruneKeeps(b, keys, now);
      PruneLowers(b, keys, now);
    case Teardown(keys) =>
      if forall t :: t in b.session.entries ==> t in keys {
        var b0 := b.(session := b.session.(closed := true));
        assert Core(b0.session) && NoEmpty(b0.session) by { Reopened(b.session, b0.session); }
        ClearOverKeeps(b0, keys);
        ClearLowers(b0, keys);
        assert ClearOver(b0, keys).session.entries == map[];
      }
  }

  lemma Reopened(s: Session, s': Session)
    requires Core(s) && NoEmpty(s) && s' == s.(closed := s'.closed)
    ensures Core(s') && NoEmpty(s')
  {
    hide Total;
    hide Listed;
    forall i: nat ensures Listed(s, i) <==> Listed(s', i) { SameEntries(s, s', i); }
  }

  lemma {:induction false} PruneEmpty(b: Books, keys: seq<string>, now: int)
    requires b.session.entries == map[]
    ensures Prune(b, keys, now) == b
    decreases |keys|
  {
    if keys != [] { PruneEmpty(b, keys[1..], now); }
  }
}
