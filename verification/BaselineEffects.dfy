/** What the cache keeps for how long, what an offer stores and what a poll gets. */
module BaselineEffects {
  import opened LiveDelta
  import opened BaselineCache

  // ------------------------------------------------------------------ two seconds

  /** Nobody holds the frame, and its time has come. */
  predicate Over(c: Cached, now: int) {
    c.pins == 0 && c.expiresAt.Some? && c.expiresAt.value <= now
  }

  function Kept(s: Session, slot: Option<nat>, now: int): Option<nat> {
    if slot.Some? && slot.value < |s.cached| && Over(s.cached[slot.value], now) then None else slot
  }

  /** What a pass leaves of an entry. */
  function Left(s: Session, e: Entry, now: int): Entry {
    Entry(Kept(s, e.confirmed, now), Kept(s, e.offered, now))
  }

  /** Frames differ in their charge at most. */
  ghost predicate SameFrames(s: Session, s': Session) {
    && |s'.cached| == |s.cached|
    && forall i :: 0 <= i < |s.cached| ==> s'.cached[i].(bytes := 0) == s.cached[i].(bytes := 0)
  }

  lemma LeftAlike(s: Session, s': Session, e: Entry, now: int)
    requires SameFrames(s, s')
    ensures Left(s', e, now) == Left(s, e, now) && Left(s, Left(s, e, now), now) == Left(s, e, now)
  {
    forall i | 0 <= i < |s.cached| ensures Over(s'.cached[i], now) <==> Over(s.cached[i], now) {
      assert s'.cached[i].(bytes := 0) == s.cached[i].(bytes := 0);
    }
  }

  /** One entry's turn: its expired frames go, and with the last of them the entry; no other is touched. */
  lemma PruneOneExact(b: Books, u: string, t: string, now: int)
    requires t in b.session.entries
    ensures var s, s' := b.session, PruneOne(b, u, now).session;
            var e := if u == t then Left(s, s.entries[t], now) else s.entries[t];
            && SameFrames(s, s')
            && (if u == t && e == Entry(None, None) then t !in s'.entries else t in s'.entries && s'.entries[t] == e)
  {
    if u in b.session.entries {
      var e := b.session.entries[u];
      var b1 := if Expired(b.session, e.confirmed, now) then DropConfirmed(b, u) else b;
      DropFrames(b, e.confirmed);
      hide Drop;
      assert SameFrames(b.session, b1.session);
      DropFrames(b1, e.offered);
      LeftAlike(b.session, b1.session, e, now);
      assert Expired(b.session, e.confirmed, now) <==> e.confirmed.Some? && Kept(b.session, e.confirmed, now).None?;
      assert Expired(b1.session, e.offered, now) <==> e.offered.Some? && Kept(b.session, e.offered, now).None? by {
        ExpiredAlike(b.session, b1.session, e.offered, now);
      }
      var b2 := if Expired(b1.session, b1.session.entries[u].offered, now) then DropOffered(b1, u) else b1;
      assert SameFrames(b.session, b2.session) by { FramesTwice(b.session, b1.session, b2.session); }
    }
  }

  lemma ExpiredAlike(s: Session, s': Session, slot: Option<nat>, now: int)
    requires SameFrames(s, s')
    ensures Expired(s', slot, now) <==> slot.Some? && Kept(s, slot, now).None?
  {
    if slot.Some? && slot.value < |s.cached| {
      assert s'.cached[slot.value].(bytes := 0) == s.cached[slot.value].(bytes := 0);
    }
  }

  lemma FramesTwice(a: Session, b: Session, c: Session)
    requires SameFrames(a, b) && SameFrames(b, c)
    ensures SameFrames(a, c)
  {
  }

  lemma DropFrames(b: Books, slot: Option<nat>)
    ensures SameFrames(b.session, Drop(b, slot).session) && Drop(b, slot).session.entries == b.session.entries
    ensures forall i :: 0 <= i < |b.session.cached| && slot != Some(i) ==> Drop(b, slot).session.cached[i] == b.session.cached[i]
  {
  }

  lemma {:induction false} PruneAbsent(b: Books, keys: seq<string>, t: string, now: int)
    requires t !in b.session.entries
    ensures t !in Prune(b, keys, now).session.entries && SameFrames(b.session, Prune(b, keys, now).session)
    decreases |keys|
  {
    if keys != [] {
      PruneOneFrames(b, keys[0], now);
      PruneAbsent(PruneOne(b, keys[0], now), keys[1..], t, now);
      FramesTwice(b.session, PruneOne(b, keys[0], now).session, Prune(b, keys, now).session);
    }
  }

  lemma PruneOneFrames(b: Books, u: string, now: int)
    ensures SameFrames(b.session, PruneOne(b, u, now).session)
    ensures forall t :: t in PruneOne(b, u, now).session.entries ==> t in b.session.entries
  {
    if u in b.session.entries { PruneOneExact(b, u, u, now); }
  }

  /** A pass over the entries leaves exactly the frames that are held or whose time has not come. */
  lemma {:induction false} PruneExact(b: Books, keys: seq<string>, t: string, now: int)
    requires t in b.session.entries && b.session.entries[t] != Entry(None, None)
    ensures var s, s' := b.session, Prune(b, keys, now).session;
            var e := if t in keys then Left(s, s.entries[t], now) else s.entries[t];
            && SameFrames(s, s')
            && (if e == Entry(None, None) then t !in s'.entries else t in s'.entries && s'.entries[t] == e)
    decreases |keys|
  {
    hide PruneOne;
    hide Left;
    if keys != [] {
      var b1 := PruneOne(b, keys[0], now);
      PruneOneExact(b, keys[0], t, now);
      LeftAlike(b.session, b1.session, b.session.entries[t], now);
      LeftAlike(b.session, b1.session, Left(b.session, b.session.entries[t], now), now);
      if t in b1.session.entries {
        PruneExact(b1, keys[1..], t, now);
      } else {
        PruneAbsent(b1, keys[1..], t, now);
      }
      FramesTwice(b.session, b1.session, Prune(b, keys, now).session);
    }
  }

  /** An entry after a pass: what is left of it, or gone with its last frame. */
  ghost predicate Trimmed(s: Session, s': Session, t: string, now: int)
    requires t in s.entries
  {
    var e := Left(s, s.entries[t], now);
    if e == Entry(None, None) then t !in s'.entries else t in s'.entries && s'.entries[t] == e
  }

  /** The timer trims every entry of an open session. */
  lemma ExpireTrims(b: Books, keys: seq<string>, now: int)
    requires SessionInv(b.session) && !b.session.closed && forall t :: t in b.session.entries ==> t in keys
    ensures forall t :: t in b.session.entries ==> Trimmed(b.session, Apply(b, Expire(keys, now)).session, t, now)
  {
    hide Prune;
    hide Core;
    forall t | t in b.session.entries ensures Trimmed(b.session, Apply(b, Expire(keys, now)).session, t, now) {
      PruneExact(b, keys, t, now);
    }
  }

  /** A frame that is held or whose time has not come keeps its charge too. */
  lemma PruneOneSpares(b: Books, u: string, i: nat, now: int)
    requires i < |b.session.cached| && !Over(b.session.cached[i], now)
    ensures i < |PruneOne(b, u, now).session.cached| && PruneOne(b, u, now).session.cached[i] == b.session.cached[i]
  {
    if u in b.session.entries {
      var b1 := if Expired(b.session, b.session.entries[u].confirmed, now) then DropConfirmed(b, u) else b;
      DropFrames(b, b.session.entries[u].confirmed);
      DropFrames(b1, b1.session.entries[u].offered);
      hide Drop;
    }
  }

  lemma {:induction false} PruneSpares(b: Books, keys: seq<string>, i: nat, now: int)
    requires i < |b.session.cached| && !Over(b.session.cached[i], now)
    ensures i < |Prune(b, keys, now).session.cached| && Prune(b, keys, now).session.cached[i] == b.session.cached[i]
    decreases |keys|
  {
    hide PruneOne;
    if keys != [] {
      PruneOneSpares(b, keys[0], i, now);
      PruneSpares(PruneOne(b, keys[0], now), keys[1..], i, now);
    }
  }

  // ------------------------------------------------------------------ what a poll gets

  predicate HasRevision(s: Session, slot: Option<nat>, observed: nat) {
    slot.Some? && slot.value < |s.cached| && s.cached[slot.value].screen.revision == observed
  }

  predicate Held(s: Session, slot: Option<nat>) {
    slot.Some? && slot.value < |s.cached| && s.cached[slot.value].pins > 0
  }

  /** The frame a poll of this terminal gets: the one it observed, unless it would replace one still held. */
  function Due(s: Session, t: string, observed: nat, now: int): Option<nat> {
    if t == "" || observed == 0 || t !in s.entries then None
    else
      var e := Left(s, s.entries[t], now);
      if HasRevision(s, e.offered, observed) then (if Held(s, e.confirmed) then None else e.offered)
      else if HasRevision(s, e.confirmed, observed) then e.confirmed
      else None
  }

  lemma SlotsIn(s: Session, t: string)
    requires Slots(s) && t in s.entries
    ensures s.entries[t].confirmed.Some? ==> s.entries[t].confirmed.value < |s.cached|
    ensures s.entries[t].offered.Some? ==> s.entries[t].offered.value < |s.cached|
  {
    var e := s.entries[t];
    if e.confirmed.Some? { assert Lists(e, e.confirmed.value); }
    if e.offered.Some? { assert Lists(e, e.offered.value); }
  }

  /** The frame is the poll's confirmed one, pinned once more, and does not expire while it is. */
  ghost predicate Pins(s: Session, s': Session, t: string, i: nat) {
    && i < |s.cached| && i < |s'.cached|
    && t in s'.entries && s'.entries[t].confirmed == Some(i)
    && s'.cached[i].screen == s.cached[i].screen && s'.cached[i].pins == s.cached[i].pins + 1 && s'.cached[i].expiresAt.None?
  }

  /** After the pass: the answer, read off the entry that is left. */
  lemma AcquireOn(b1: Books, t: string, observed: nat, now: int)
    requires Slots(b1.session) && t in b1.session.entries && Left(b1.session, b1.session.entries[t], now) == b1.session.entries[t]
    requires t != "" && observed != 0
    ensures var a := Acquire(b1, t, observed, [], now);
            a.held == Due(b1.session, t, observed, now) && (a.held.Some? ==> Pins(b1.session, a.books.session, t, a.held.value))
  {
    SlotsIn(b1.session, t);
    assert Prune(b1, [], now) == b1;
    DropFrames(b1, b1.session.entries[t].confirmed);
    hide Drop;
    if Promote(b1, t, observed).Some? {
      var b2 := Promote(b1, t, observed).value;
      assert SameFrames(b1.session, b2.session);
      var slot := b2.session.entries[t].confirmed;
      if slot.Some? && slot.value < |b2.session.cached| {
        assert b2.session.cached[slot.value].(bytes := 0) == b1.session.cached[slot.value].(bytes := 0);
      }
    }
  }

  /** A poll gets exactly the frame due to it, pinned. */
  lemma AcquireAnswers(b: Books, t: string, observed: nat, keys: seq<string>, now: int)
    requires SessionInv(b.session) && (t in b.session.entries ==> t in keys)
    ensures var a := Acquire(b, t, observed, keys, now);
            a.held == Due(b.session, t, observed, now) && (a.held.Some? ==> Pins(b.session, a.books.session, t, a.held.value))
  {
    hide Prune;
    if t != "" && observed != 0 {
      var b1 := Prune(b, keys, now);
      PruneKeeps(b, keys, now);
      hide Charged;
      hide Pinned;
      if t in b.session.entries {
        PruneExact(b, keys, t, now);
        LeftAlike(b.session, b1.session, b.session.entries[t], now);
        LeftAlike(b.session, b1.session, Left(b.session, b.session.entries[t], now), now);
        if t in b1.session.entries {
          AcquireOn(b1, t, observed, now);
          PrunedFirst(b, b1, t, observed, keys, now);
          DueAlike(b.session, b1.session, t, observed, now);
          hide Acquire;
          hide Slots;
        }
      } else {
        PruneAbsent(b, keys, t, now);
      }
    }
  }

  lemma PrunedFirst(b: Books, b1: Books, t: string, observed: nat, keys: seq<string>, now: int)
    requires b1 == Prune(b, keys, now) && t != "" && observed != 0
    ensures Acquire(b, t, observed, keys, now) == Acquire(b1, t, observed, [], now)
  {
    hide Promote;
    assert Prune(b1, [], now) == b1;
  }

  lemma DueAlike(s: Session, s': Session, t: string, observed: nat, now: int)
    requires SameFrames(s, s') && t in s.entries && t in s'.entries && s'.entries[t] == Left(s, s.entries[t], now)
    ensures Due(s', t, observed, now) == Due(s, t, observed, now)
    ensures forall i :: 0 <= i < |s.cached| ==>
              s'.cached[i].screen == s.cached[i].screen && s'.cached[i].pins == s.cached[i].pins
  {
    LeftAlike(s, s', s.entries[t], now);
    LeftAlike(s, s', Left(s, s.entries[t], now), now);
    forall i | 0 <= i < |s.cached| ensures s'.cached[i].screen == s.cached[i].screen && s'.cached[i].pins == s.cached[i].pins {
      assert s'.cached[i].(bytes := 0) == s.cached[i].(bytes := 0);
    }
    hide Left;
  }

  // ------------------------------------------------------------------ what an offer stores

  /** The frame is the terminal's offer, as a new object that expires two seconds from now. */
  ghost predicate Stores(s: Session, s': Session, t: string, screen: Baseline, now: int) {
    && |s'.cached| == |s.cached| + 1
    && t in s'.entries && s'.entries[t].offered == Some(|s.cached|)
    && s'.cached[|s.cached|] == Cached(screen, 8 * |screen.rowHashes| + 64, 0, Some(now + 2000))
  }

  /** The bytes of the offer a new one would replace. */
  function Replaced(s: Session, t: string): nat {
    if t in s.entries && s.entries[t].offered.Some? && s.entries[t].offered.value < |s.cached|
    then s.cached[s.entries[t].offered.value].bytes else 0
  }

  /** There is a place for the entry, no newer offer, and room within both limits. */
  ghost predicate HasRoom(b: Books, t: string, screen: Baseline) {
    var s, w := b.session, 8 * |screen.rowHashes| + 64;
    && t != "" && !s.closed && (t in s.entries || |s.entries| < 64)
    && (t in s.entries && s.entries[t].offered.Some? && s.entries[t].offered.value < |s.cached| ==>
          s.cached[s.entries[t].offered.value].screen.revision <= screen.revision)
    && s.bytes - Replaced(s, t) + w <= 1048576 && b.server - Replaced(s, t) + w <= 67108864
  }

  lemma DropBytes(b: Books, slot: Option<nat>)
    requires Core(b.session) && (slot.Some? ==> slot.value < |b.session.cached|)
    ensures var n := if slot.Some? then b.session.cached[slot.value].bytes else 0;
            Drop(b, slot).session.bytes == b.session.bytes - n >= 0 && Drop(b, slot).server == b.server - n
  {
    hide Slots;
    hide Charged;
    hide Pinned;
    if slot.Some? { TotalAtLeast(b.session.cached, slot.value); }
    hide Total;
  }

  /** The place an offer finds, and the bytes it frees there. */
  lemma RoomOn(b1: Books, t: string, revision: nat)
    requires Core(b1.session)
    ensures var s, r := b1.session, MakeRoom(b1, t, revision);
            && (r.Some? <==> (t in s.entries || |s.entries| < 64)
                             && (t in s.entries && s.entries[t].offered.Some? && s.entries[t].offered.value < |s.cached| ==>
                                   s.cached[s.entries[t].offered.value].screen.revision <= revision))
            && (r.Some? ==> && t in r.value.session.entries && |r.value.session.cached| == |s.cached|
                            && r.value.session.bytes == s.bytes - Replaced(s, t) >= 0
                            && r.value.server == b1.server - Replaced(s, t))
  {
    var s := b1.session;
    if t in s.entries {
      SlotsIn(s, t);
      DropBytes(b1, s.entries[t].offered);
      DropFrames(b1, s.entries[t].offered);
    }
    DropBytes(b1, None);
    NotPinned(s, t);
    hide Core;
    hide Drop;
  }

  lemma InsertOn(b: Books, t: string, screen: Baseline, now: int)
    requires t in b.session.entries
    ensures var w := 8 * |screen.rowHashes| + 64;
            Stores(b.session, Insert(b, t, screen, now).session, t, screen, now)
            <==> b.session.bytes + w <= 1048576 && b.server + w <= 67108864
  {
  }

  /** After the pass: an offer is stored exactly when it fits. */
  lemma OfferOn(b1: Books, t: string, screen: Baseline, now: int)
    requires Core(b1.session)
    ensures Stores(b1.session, Offer(b1, t, screen, [], now).session, t, screen, now) <==> HasRoom(b1, t, screen)
  {
    RoomOn(b1, t, screen.revision);
    assert Prune(b1, [], now) == b1;
    hide Core;
    hide Replaced;
    var r := MakeRoom(b1, t, screen.revision);
    hide MakeRoom;
    if r.Some? {
      InsertOn(r.value, t, screen, now);
      hide Insert;
      StoresAlike(b1.session, r.value.session, Offer(b1, t, screen, [], now).session, t, screen, now);
    }
    hide Prune;
  }

  lemma StoresAlike(s: Session, s1: Session, s': Session, t: string, screen: Baseline, now: int)
    requires |s1.cached| == |s.cached|
    ensures Stores(s, s', t, screen, now) <==> Stores(s1, s', t, screen, now)
  {
  }

  lemma NotPinned(s: Session, t: string)
    requires Core(s)
    ensures t in s.entries && s.entries[t].offered.Some? && s.entries[t].offered.value < |s.cached| ==>
              s.cached[s.entries[t].offered.value].pins == 0
  {
  }

  /** An offer is stored exactly when, expired frames gone, it fits. */
  lemma OfferStoredIff(b: Books, t: string, screen: Baseline, keys: seq<string>, now: int)
    requires SessionInv(b.session)
    ensures Stores(b.session, Offer(b, t, screen, keys, now).session, t, screen, now) <==> HasRoom(Prune(b, keys, now), t, screen)
  {
    hide Core;
    var b1 := Prune(b, keys, now);
    PruneKeeps(b, keys, now);
    PruneFrames(b, keys, now);
    OfferOn(b1, t, screen, now);
    assert Prune(b1, [], now) == b1;
    assert NonNegative(b1) by { CoreBytes(b1); }
    hide Prune;
    hide NoEmpty;
    if t != "" && Weight(screen) <= MAX_SESSION_BYTES && !b.session.closed {
      hide MakeRoom;
      hide Insert;
      assert Offer(b, t, screen, keys, now) == Offer(b1, t, screen, [], now);
    }
  }

  ghost predicate NonNegative(b: Books) {
    forall t :: b.session.bytes - Replaced(b.session, t) >= 0
  }

  lemma CoreBytes(b: Books)
    requires Core(b.session)
    ensures NonNegative(b)
  {
    hide Slots;
    hide Charged;
    hide Pinned;
    forall t ensures b.session.bytes - Replaced(b.session, t) >= 0 {
      if Replaced(b.session, t) > 0 { TotalAtLeast(b.session.cached, b.session.entries[t].offered.value); }
    }
  }

  lemma {:induction false} PruneFrames(b: Books, keys: seq<string>, now: int)
    ensures SameFrames(b.session, Prune(b, keys, now).session)
    decreases |keys|
  {
    hide PruneOne;
    if keys != [] {
      PruneOneFrames(b, keys[0], now);
      PruneFrames(PruneOne(b, keys[0], now), keys[1..], now);
      FramesTwice(b.session, PruneOne(b, keys[0], now).session, Prune(b, keys, now).session);
    }
  }

  // ------------------------------------------------------------------ from an offer to the poll

  /** Frame i is the terminal's offer, not held, with its time to come. */
  ghost predicate Waits(s: Session, t: string, i: nat, screen: Baseline, until: int) {
    && t in s.entries && s.entries[t].offered == Some(i) && i < |s.cached|
    && s.cached[i].screen == screen && s.cached[i].pins == 0 && s.cached[i].expiresAt == Some(until)
  }

  /** An action of the session before that time that is not about this terminal. */
  predicate Aside(a: Action, t: string, until: int) {
    match a
    case Poll(u, _, _, now) => u != t && now < until
    case Done(_, now) => true
    case Respond(u, _, _, now) => u != t && now < until
    case Expire(_, now) => now < until
    case Teardown(_) => false
  }

  lemma PruneWaits(b: Books, keys: seq<string>, now: int, t: string, i: nat, screen: Baseline, until: int)
    requires Waits(b.session, t, i, screen, until) && now < until
    ensures Waits(Prune(b, keys, now).session, t, i, screen, until)
  {
    PruneExact(b, keys, t, now);
    PruneSpares(b, keys, i, now);
    hide Prune;
  }

  lemma DropWaits(b: Books, slot: Option<nat>, t: string, i: nat, screen: Baseline, until: int)
    requires Waits(b.session, t, i, screen, until)
    ensures Waits(Drop(b, slot).session, t, i, screen, until)
  {
  }

  lemma PromoteWaits(b: Books, u: string, observed: nat, t: string, i: nat, screen: Baseline, until: int)
    requires Waits(b.session, t, i, screen, until) && u in b.session.entries && u != t
    requires b.session.entries[u].confirmed != Some(i) && b.session.entries[u].offered != Some(i)
    ensures var r := Promote(b, u, observed);
            r.Some? ==> && Waits(r.value.session, t, i, screen, until)
                        && u in r.value.session.entries && r.value.session.entries[u].confirmed != Some(i)
  {
    hide Drop;
    DropFrames(b, b.session.entries[u].confirmed);
    DropWaits(b, b.session.entries[u].confirmed, t, i, screen, until);
  }

  lemma AcquireWaits(b: Books, u: string, observed: nat, keys: seq<string>, now: int, t: string, i: nat, screen: Baseline, until: int)
    requires SessionInv(b.session) && Waits(b.session, t, i, screen, until) && now < until && u != t
    ensures Waits(Acquire(b, u, observed, keys, now).books.session, t, i, screen, until)
  {
    hide Prune;
    hide Promote;
    hide Core;
    var b1 := Prune(b, keys, now);
    PruneWaits(b, keys, now, t, i, screen, until);
    PruneKeeps(b, keys, now);
    if u in b1.session.entries {
      Elsewhere(b1.session, u, t, i);
      PromoteWaits(b1, u, observed, t, i, screen, until);
    }
  }

  /** A frame of one terminal is in no slot of another. */
  lemma Elsewhere(s: Session, u: string, t: string, i: nat)
    requires Core(s) && t in s.entries && s.entries[t].offered == Some(i) && u in s.entries && u != t
    ensures s.entries[u].confirmed != Some(i) && s.entries[u].offered != Some(i)
  {
    assert Lists(s.entries[t], i);
    assert !Lists(s.entries[u], i);
  }

  lemma OfferWaits(b: Books, u: string, other: Baseline, keys: seq<string>, now: int, t: string, i: nat, screen: Baseline, until: int)
    requires Waits(b.session, t, i, screen, until) && now < until && u != t
    ensures Waits(Offer(b, u, other, keys, now).session, t, i, screen, until)
  {
    hide Prune;
    hide Drop;
    var b1 := Prune(b, keys, now);
    PruneWaits(b, keys, now, t, i, screen, until);
    if u in b1.session.entries { DropWaits(b1, b1.session.entries[u].offered, t, i, screen, until); }
  }

  lemma WaitsOn(b: Books, a: Action, t: string, i: nat, screen: Baseline, until: int)
    requires SessionInv(b.session) && Waits(b.session, t, i, screen, until) && Aside(a, t, until)
    ensures Waits(Apply(b, a).session, t, i, screen, until)
  {
    hide Prune;
    hide Acquire;
    hide Offer;
    match a
    case Poll(u, observed, keys, now) => AcquireWaits(b, u, observed, keys, now, t, i, screen, until);
    case Done(j, now) => HeldElsewhere(b.session, i, j);
    case Respond(u, other, keys, now) => OfferWaits(b, u, other, keys, now, t, i, screen, until);
    case Expire(keys, now) => PruneWaits(b, keys, now, t, i, screen, until);
    case Teardown(_) =>
  }

  lemma HeldElsewhere(s: Session, i: nat, j: nat)
    requires SessionInv(s) && i < |s.cached| && s.cached[i].pins == 0
    ensures s.holders[j] > 0 ==> i != j
  {
  }

  function ApplyAll(b: Books, actions: seq<Action>): Books
    decreases |actions|
  {
    if actions == [] then b else ApplyAll(Apply(b, actions[0]), actions[1..])
  }

  lemma {:induction false} WaitsThrough(b: Books, actions: seq<Action>, t: string, i: nat, screen: Baseline, until: int)
    requires SessionInv(b.session) && Waits(b.session, t, i, screen, until)
    requires forall k :: 0 <= k < |actions| ==> Aside(actions[k], t, until)
    ensures SessionInv(ApplyAll(b, actions).session) && Waits(ApplyAll(b, actions).session, t, i, screen, until)
    decreases |actions|
  {
    hide SessionInv;
    hide Waits;
    hide Apply;
    hide Aside;
    if actions != [] {
      ApplyKeeps(b, actions[0]);
      WaitsOn(b, actions[0], t, i, screen, until);
      WaitsThrough(Apply(b, actions[0]), actions[1..], t, i, screen, until);
    }
  }

  /**
   A frame offered with room, whatever else the session does meanwhile, is what a poll that
   observed its revision within two seconds gets, unless a poll still holds the frame before it.
   */
  lemma OfferReachesPoll(b: Books, t: string, screen: Baseline, keys: seq<string>, now: int,
                         actions: seq<Action>, keys': seq<string>, now': int)
    requires SessionInv(b.session) && HasRoom(Prune(b, keys, now), t, screen) && screen.revision != 0
    requires (forall k :: 0 <= k < |actions| ==> Aside(actions[k], t, now + 2000)) && now' < now + 2000
    requires var b' := ApplyAll(Offer(b, t, screen, keys, now), actions);
             && (t in b'.session.entries ==> t in keys')
             && (t in b'.session.entries ==> !Held(b'.session, b'.session.entries[t].confirmed))
    ensures var b' := ApplyAll(Offer(b, t, screen, keys, now), actions);
            var a := Acquire(b', t, screen.revision, keys', now');
            && a.held == Some(|b.session.cached|) && a.held.value < |a.books.session.cached|
            && a.books.session.cached[a.held.value].screen == screen
  {
    hide SessionInv;
    hide Prune;
    hide Acquire;
    hide ApplyAll;
    var b1, i := Offer(b, t, screen, keys, now), |b.session.cached|;
    OfferStoredIff(b, t, screen, keys, now);
    ApplyKeeps(b, Respond(t, screen, keys, now));
    hide Offer;
    hide HasRoom;
    WaitsThrough(b1, actions, t, i, screen, now + 2000);
    var b2 := ApplyAll(b1, actions);
    AcquireAnswers(b2, t, screen.revision, keys', now');
    hide Aside;
  }
}
