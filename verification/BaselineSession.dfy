/** The baseline cache as the object a protocol session owns, and what its runs guarantee. */
module BaselineSession {
  import opened LiveDelta
  import opened BaselineCache
  import opened BaselineWorld
  import opened BaselineEffects

  // ------------------------------------------------------------------ what the counters mean

  /** The weight of the confirmed and offered baselines among the first n cached ones. */
  ghost function ListedWeight(s: Session, n: nat): nat
    requires n <= |s.cached|
  {
    if n == 0 then 0
    else ListedWeight(s, n - 1) + if Listed(s, n - 1) then Weight(s.cached[n - 1].screen) else 0
  }

  lemma {:induction false} ChargedIsWeight(s: Session, n: nat)
    requires Charged(s) && n <= |s.cached|
    ensures Total(s.cached[..n]) == ListedWeight(s, n)
  {
    if n > 0 {
      ChargedIsWeight(s, n - 1);
      assert s.cached[..n][..n - 1] == s.cached[..n - 1];
    }
  }

  /** In every reachable state the counters are the weight of what the caches hold, within limits. */
  lemma CountersExact(steps: seq<Step>, k: nat)
    requires k < |Run(World(0, []), steps).sessions|
    ensures var w := Run(World(0, []), steps);
            && w.server == Sum(w.sessions) <= MAX_SERVER_BYTES
            && w.sessions[k].bytes == ListedWeight(w.sessions[k], |w.sessions[k].cached|) <= MAX_SESSION_BYTES
            && |w.sessions[k].entries| <= MAX_ENTRIES
            && (w.sessions[k].closed ==> w.sessions[k].bytes == 0)
  {
    hide Run;
    hide Total;
    hide Listed;
    hide Slots;
    hide Pinned;
    var start := World(0, []);
    RunKeeps(start, steps);
    var s := Run(start, steps).sessions[k];
    assert SessionInv(s);
    ChargedIsWeight(s, |s.cached|);
    assert s.cached[..|s.cached|] == s.cached;
    if s.closed {
      forall i: nat ensures !Listed(s, i) { NothingListed(s, i); }
      WeightlessSession(s, |s.cached|);
    }
  }

  lemma NothingListed(s: Session, i: nat)
    requires s.entries == map[]
    ensures !Listed(s, i)
  {
  }

  lemma {:induction false} WeightlessSession(s: Session, n: nat)
    requires n <= |s.cached| && forall i: nat :: !Listed(s, i)
    ensures ListedWeight(s, n) == 0
  {
    if n > 0 { WeightlessSession(s, n - 1); }
  }

  /** Giving back a baseline's bytes never takes a counter below zero, and a second drop is free. */
  lemma DropNeverClamps(b: Books, slot: Option<nat>)
    requires Core(b.session) && (slot.Some? ==> slot.value < |b.session.cached|)
    ensures var b' := Drop(b, slot);
            && b'.session.bytes == b.session.bytes - (if slot.Some? then b.session.cached[slot.value].bytes else 0)
            && b'.session.bytes >= 0 && Even(b, b') && Drop(b', slot) == b'
  {
    hide Total;
    hide Slots;
    hide Charged;
    hide Pinned;
    if slot.Some? { TotalAtLeast(b.session.cached, slot.value); }
  }

  // ------------------------------------------------------------------ pins

  /** Poll-pinned confirmed frame i of terminal t. */
  ghost predicate Holds(s: Session, t: string, i: nat) {
    && t in s.entries && s.entries[t].confirmed == Some(i)
    && i < |s.cached| && s.cached[i].pins > 0
  }

  ghost predicate StillHolds(s: Session, s': Session, t: string, i: nat) {
    Holds(s, t, i) ==>
      && t in s'.entries && s'.entries[t].confirmed == Some(i)
      && i < |s'.cached| && s'.cached[i].screen == s.cached[i].screen && s'.cached[i].pins >= s.cached[i].pins
  }

  /** A drop changes bytes, and nothing a poll looks at. */
  lemma DropHolds(b: Books, slot: Option<nat>, t: string, i: nat)
    ensures StillHolds(b.session, Drop(b, slot).session, t, i)
    ensures Drop(b, slot).session.entries == b.session.entries
    ensures Holds(b.session, t, i) ==> !Expired(b.session, Some(i), 0)
  {
  }

  lemma PruneOneHolds(b: Books, u: string, now: int, t: string, i: nat)
    ensures StillHolds(b.session, PruneOne(b, u, now).session, t, i)
  {
    hide Drop;
    if u in b.session.entries {
      DropHolds(b, b.session.entries[u].confirmed, t, i);
      var b1 := if Expired(b.session, b.session.entries[u].confirmed, now) then DropConfirmed(b, u) else b;
      assert StillHolds(b.session, b1.session, t, i);
      DropHolds(b1, b1.session.entries[u].offered, t, i);
    }
  }

  lemma {:induction false} PruneHolds(b: Books, keys: seq<string>, now: int, t: string, i: nat)
    ensures StillHolds(b.session, Prune(b, keys, now).session, t, i)
    decreases |keys|
  {
    hide PruneOne;
    if keys != [] {
      PruneOneHolds(b, keys[0], now, t, i);
      PruneHolds(PruneOne(b, keys[0], now), keys[1..], now, t, i);
    }
  }

  lemma PromoteHolds(b: Books, u: string, observed: nat, t: string, i: nat)
    requires u in b.session.entries
    ensures var r := Promote(b, u, observed); r.Some? ==> StillHolds(b.session, r.value.session, t, i)
  {
    hide Drop;
    DropHolds(b, b.session.entries[u].confirmed, t, i);
  }

  lemma AcquireHolds(b: Books, u: string, observed: nat, keys: seq<string>, now: int, t: string, i: nat)
    ensures StillHolds(b.session, Acquire(b, u, observed, keys, now).books.session, t, i)
  {
    hide Prune;
    hide Promote;
    PruneHolds(b, keys, now, t, i);
    var b1 := Prune(b, keys, now);
    if u in b1.session.entries { PromoteHolds(b1, u, observed, t, i); }
  }

  lemma OfferHolds(b: Books, u: string, screen: Baseline, keys: seq<string>, now: int, t: string, i: nat)
    ensures StillHolds(b.session, Offer(b, u, screen, keys, now).session, t, i)
  {
    hide Prune;
    PruneHolds(b, keys, now, t, i);
    var b1 := Prune(b, keys, now);
    var r := MakeRoom(b1, u, screen.revision);
    if r.Some? {
      RoomHolds(b1, u, screen.revision, t, i);
      hide MakeRoom;
      if u in r.value.session.entries { InsertHolds(r.value, u, screen, now, t, i); }
    }
  }

  lemma RoomHolds(b: Books, u: string, revision: nat, t: string, i: nat)
    ensures var r := MakeRoom(b, u, revision); r.Some? ==> StillHolds(b.session, r.value.session, t, i)
  {
  }

  lemma InsertHolds(b: Books, u: string, screen: Baseline, now: int, t: string, i: nat)
    requires u in b.session.entries
    ensures StillHolds(b.session, Insert(b, u, screen, now).session, t, i)
  {
  }

  /** A pinned frame stays cached and charged through every step of its session but the teardown. */
  lemma PinnedStays(b: Books, a: Action, t: string, i: nat)
    requires SessionInv(b.session) && Holds(b.session, t, i) && !a.Teardown?
    ensures var s := Apply(b, a).session;
            && t in s.entries && s.entries[t].confirmed == Some(i)
            && i < |s.cached| && s.cached[i].screen == b.session.cached[i].screen
            && s.cached[i].bytes == b.session.cached[i].bytes
  {
    ApplyKeeps(b, a);
    var s := Apply(b, a).session;
    assert t in s.entries && s.entries[t].confirmed == Some(i)
           && i < |s.cached| && s.cached[i].screen == b.session.cached[i].screen by {
      hide SessionInv;
      hide Prune;
      hide Acquire;
      hide Offer;
      match a
      case Poll(u, observed, keys, now) => AcquireHolds(b, u, observed, keys, now, t, i);
      case Done(j, now) =>
      case Respond(u, screen, keys, now) => OfferHolds(b, u, screen, keys, now, t, i);
      case Expire(keys, now) => PruneHolds(b, keys, now, t, i);
      case Teardown(keys) =>
    }
    hide Apply;
    hide Slots;
    hide Pinned;
    hide Total;
    Shows(b.session, t, i);
    Shows(s, t, i);
  }

  // ------------------------------------------------------------------ expiry

  /** Neither frame of the terminal has expired. */
  ghost predicate Current(s: Session, t: string, now: int) {
    t in s.entries ==> !Expired(s, s.entries[t].confirmed, now) && !Expired(s, s.entries[t].offered, now)
  }

  /** A drop changes no frame's expiry and no entry. */
  lemma DropExpiry(b: Books, slot: Option<nat>, other: Option<nat>, now: int)
    ensures Drop(b, slot).session.entries == b.session.entries
    ensures Expired(Drop(b, slot).session, other, now) <==> Expired(b.session, other, now)
  {
  }

  lemma PruneOneClears(b: Books, u: string, t: string, now: int)
    ensures u == t || Current(b.session, t, now) ==> Current(PruneOne(b, u, now).session, t, now)
  {
    hide Drop;
    hide Expired;
    if u in b.session.entries {
      var c := b.session.entries[u].confirmed;
      DropExpiry(b, c, None, now);
      var b1 := if Expired(b.session, c, now) then DropConfirmed(b, u) else b;
      var o := b1.session.entries[u].offered;
      DropExpiry(b1, o, None, now);
      if t in b.session.entries {
        var e := b.session.entries[t];
        DropExpiry(b, c, e.confirmed, now);
        DropExpiry(b, c, e.offered, now);
        SameExpiry(Drop(b, c), DropConfirmed(b, u), now);
        DropExpiry(b1, o, e.confirmed, now);
        DropExpiry(b1, o, e.offered, now);
        SameExpiry(Drop(b1, o), DropOffered(b1, u), now);
        var b2 := if Expired(b1.session, o, now) then DropOffered(b1, u) else b1;
        SameExpiry(b2, DeleteEmpty(b2, u), now);
        NoneExpires(b.session, now);
        NoneExpires(b1.session, now);
        NoneExpires(b2.session, now);
      }
    }
  }

  lemma SameExpiry(b: Books, b': Books, now: int)
    requires b'.session.cached == b.session.cached
    ensures forall slot :: Expired(b'.session, slot, now) <==> Expired(b.session, slot, now)
  {
  }

  lemma NoneExpires(s: Session, now: int)
    ensures !Expired(s, None, now)
  {
  }

  lemma {:induction false} StaysCurrent(b: Books, keys: seq<string>, t: string, now: int)
    requires Current(b.session, t, now)
    ensures Current(Prune(b, keys, now).session, t, now)
    decreases |keys|
  {
    hide PruneOne;
    hide Current;
    if keys != [] {
      PruneOneClears(b, keys[0], t, now);
      StaysCurrent(PruneOne(b, keys[0], now), keys[1..], t, now);
    }
  }

  /** After a pass over all entries no expired frame is left. */
  lemma {:induction false} PruneClears(b: Books, keys: seq<string>, t: string, now: int)
    requires t in keys
    ensures Current(Prune(b, keys, now).session, t, now)
    decreases |keys|
  {
    hide PruneOne;
    hide Current;
    PruneOneClears(b, keys[0], t, now);
    if t == keys[0] {
      StaysCurrent(PruneOne(b, keys[0], now), keys[1..], t, now);
    } else {
      PruneClears(PruneOne(b, keys[0], now), keys[1..], t, now);
    }
  }

  // ------------------------------------------------------------------ the object

  class ServerCounter {
    var bytes: int
    constructor () ensures bytes == 0 { bytes := 0; }
  }

  lemma {:induction false} PruneSnoc(b: Books, keys: seq<string>, t: string, now: int)
    ensures Prune(b, keys + [t], now) == PruneOne(Prune(b, keys, now), t, now)
    decreases |keys|
  {
    hide PruneOne;
    if keys == [] {
      assert keys + [t] == [t] && [t][1..] == [];
      assert Prune(b, [t], now) == Prune(PruneOne(b, t, now), [t][1..], now);
    } else {
      assert (keys + [t])[1..] == keys[1..] + [t];
      PruneSnoc(PruneOne(b, keys[0], now), keys[1..], t, now);
    }
  }

  lemma {:induction false} ClearSnoc(b: Books, keys: seq<string>, t: string)
    ensures ClearOver(b, keys + [t]) == ClearOne(ClearOver(b, keys), t)
    decreases |keys|
  {
    hide ClearOne;
    if keys == [] {
      assert keys + [t] == [t] && [t][1..] == [];
      assert ClearOver(b, [t]) == ClearOver(ClearOne(b, t), [t][1..]);
    } else {
      assert (keys + [t])[1..] == keys[1..] + [t];
      ClearSnoc(ClearOne(b, keys[0]), keys[1..], t);
    }
  }

  class SessionBaselines {
    const server: ServerCounter
    var entries: map<string, Entry>
    var cached: seq<Cached>
    var bytes: int
    var closed: bool
    ghost var holders: multiset<nat>

    ghost function View(): Books
      reads this, server
    {
      Books(Session(entries, cached, bytes, closed, holders), server.bytes)
    }

    ghost predicate Valid()
      reads this, server
    {
      SessionInv(View().session)
    }

    constructor (server: ServerCounter)
      ensures Valid() && View() == Books(NewSession, server.bytes) && this.server == server
    {
      this.server := server;
      entries, cached, bytes, closed, holders := map[], [], 0, false, multiset{};
    }

    method DropCached(slot: Option<nat>)
      modifies this`cached, this`bytes, server
      ensures View() == Drop(old(View()), slot)
    {
      if slot.None? || slot.value >= |cached| || cached[slot.value].bytes == 0 {
        return;
      }
      var c := cached[slot.value];
      bytes := bytes - c.bytes;
      if bytes < 0 { bytes := 0; }
      server.bytes := server.bytes - c.bytes;
      cached := cached[slot.value := c.(bytes := 0)];
    }

    method IsExpired(slot: Option<nat>, now: int) returns (r: bool)
      ensures r == Expired(View().session, slot, now)
    {
      r := slot.Some? && slot.value < |cached| && cached[slot.value].pins == 0
           && cached[slot.value].expiresAt.Some? && now >= cached[slot.value].expiresAt.value;
    }

    method PruneEntry(t: string, now: int)
      requires t in entries
      modifies this`entries, this`cached, this`bytes, server
      ensures View() == PruneOne(old(View()), t, now)
    {
      hide Expired;
      hide Drop;
      var e := entries[t];
      var gone := IsExpired(e.confirmed, now);
      if gone {
        DropCached(e.confirmed);
        e := e.(confirmed := None);
        entries := entries[t := e];
      }
      gone := IsExpired(e.offered, now);
      if gone {
        DropCached(e.offered);
        e := e.(offered := None);
        entries := entries[t := e];
      }
      if e.confirmed.None? && e.offered.None? {
        entries := entries - {t};
      }
    }

    /** pruneLiveScreenBaselinesLocked; the keys come in whatever order the map gives them. */
    method PruneAll(now: int) returns (ghost keys: seq<string>)
      modifies this`entries, this`cached, this`bytes, server
      ensures View() == Prune(old(View()), keys, now)
      ensures forall t :: t in old(entries) ==> t in keys
      ensures forall i :: 0 <= i < |old(cached)| && !Over(old(cached)[i], now) ==> i < |cached| && cached[i] == old(cached)[i]
    {
      hide PruneOne;
      keys := [];
      var todo := entries.Keys;
      while todo != {}
        invariant forall t :: t in old(entries) ==> t in keys || t in todo
        invariant View() == Prune(old(View()), keys, now)
        decreases |todo|
      {
        var t :| t in todo;
        PruneSnoc(old(View()), keys, t, now);
        todo := todo - {t};
        keys := keys + [t];
        if t in entries { PruneEntry(t, now); } else { PruneMissing(View(), t, now); }
      }
      ghost var b := old(View());
      forall i | 0 <= i < |b.session.cached| && !Over(b.session.cached[i], now)
        ensures i < |cached| && cached[i] == b.session.cached[i]
      {
        PruneSpares(b, keys, i, now);
      }
    }

    lemma PruneMissing(b: Books, t: string, now: int)
      requires t !in b.session.entries
      ensures PruneOne(b, t, now) == b
    {
    }

    /** acquireLiveScreenBaseline: the baseline the caller now pins. */
    method AcquireBaseline(t: string, observed: nat, now: int) returns (held: Option<nat>, ghost keys: seq<string>)
      requires Valid()
      modifies this, server
      ensures Valid() && Acquire(old(View()), t, observed, keys, now) == Acquired(View(), held)
      ensures View() == Apply(old(View()), Poll(t, observed, keys, now))
      ensures held.Some? ==> held.value < |cached| && cached[held.value].screen.revision == observed
      ensures held == Due(old(View()).session, t, observed, now)
      ensures held.Some? ==> Pins(old(View()).session, View().session, t, held.value)
    {
      hide SessionInv;
      hide Drop;
      hide Pins;
      hide Left;
      hide Kept;
      keys := [];
      ghost var before := View();
      if t == "" || observed == 0 {
        return None, [];
      }
      keys := PruneAll(now);
      AcquireAnswers(before, t, observed, keys, now);
      hide Due;
      ApplyKeeps(before, Poll(t, observed, keys, now));
      hide Prune;
      if t !in entries {
        return None, keys;
      }
      held := Confirm(t, observed);
      if held.Some? {
        var c := cached[held.value];
        cached := cached[held.value := c.(pins := c.pins + 1, expiresAt := None)];
        holders := holders + multiset{held.value};
      }
    }

    /** The confirmed baseline at the observed revision, after the offer took its place if it has that revision. */
    method Confirm(t: string, observed: nat) returns (held: Option<nat>)
      requires t in entries
      modifies this`entries, this`cached, this`bytes, server
      ensures var r := Promote(old(View()), t, observed);
              if r.None? then held.None? && View() == old(View())
              else && View() == r.value && t in entries
                   && (if entries[t].confirmed.Some? && entries[t].confirmed.value < |cached|
                          && cached[entries[t].confirmed.value].screen.revision == observed
                       then held == entries[t].confirmed else held == None)
    {
      hide Drop;
      var e := entries[t];
      if e.offered.Some? && e.offered.value < |cached| && cached[e.offered.value].screen.revision == observed {
        if e.confirmed.Some? && e.confirmed.value < |cached| && cached[e.confirmed.value].pins > 0 {
          return None;
        }
        DropCached(e.confirmed);
        entries := entries[t := Entry(e.offered, None)];
      }
      held := entries[t].confirmed;
      if held.Some? && (held.value >= |cached| || cached[held.value].screen.revision != observed) {
        held := None;
      }
    }

    /** The release of one successful acquire; it runs once. */
    method ReleaseBaseline(i: nat, now: int)
      requires Valid() && i < |cached| && i in holders
      modifies this
      ensures Valid() && View() == Apply(old(View()), Done(i, now))
      ensures i < |cached| && cached[i].pins == old(cached)[i].pins - 1 && cached[i].screen == old(cached)[i].screen
      ensures cached[i].pins == 0 ==> cached[i].expiresAt == Some(now + 2000)
    {
      hide SessionInv;
      hide Acquire;
      hide BaselineCache.Offer;
      hide Prune;
      hide Clear;
      HolderPins(View().session, i);
      ApplyKeeps(View(), Done(i, now));
      var c := cached[i];
      var pins := c.pins;
      if pins > 0 { pins := pins - 1; }
      cached := cached[i := c.(pins := pins, expiresAt := if pins == 0 then Some(now + TTL) else c.expiresAt)];
      holders := holders - multiset{i};
    }

    lemma HolderPins(s: Session, i: nat)
      requires SessionInv(s) && i < |s.cached| && i in s.holders
      ensures s.cached[i].pins > 0
    {
    }

    /** offerLiveScreenBaseline */
    method OfferBaseline(t: string, screen: Baseline, now: int) returns (ghost keys: seq<string>)
      requires Valid()
      modifies this, server
      ensures Valid() && View() == Apply(old(View()), Respond(t, screen, keys, now))
      ensures t != "" && !old(closed) && Weight(screen) <= MAX_SESSION_BYTES ==> forall u :: u in old(entries) ==> u in keys
      ensures Stores(old(View()).session, View().session, t, screen, now) <==> HasRoom(Prune(old(View()), keys, now), t, screen)
    {
      hide SessionInv;
      hide Drop;
      keys := [];
      ghost var before := View();
      OfferStoredIff(before, t, screen, keys, now);
      ApplyKeeps(before, Respond(t, screen, keys, now));
      if t == "" || Weight(screen) > MAX_SESSION_BYTES || closed {
        return;
      }
      keys := PruneAll(now);
      OfferStoredIff(before, t, screen, keys, now);
      hide Stores;
      hide HasRoom;
      ApplyKeeps(before, Respond(t, screen, keys, now));
      hide Prune;
      var room := ClearOffer(t, screen.revision);
      if room {
        InsertOffer(t, screen, now);
      }
    }

    method ClearOffer(t: string, revision: nat) returns (room: bool)
      modifies this`entries, this`cached, this`bytes, server
      ensures var r := MakeRoom(old(View()), t, revision);
              room == r.Some? && View() == (if r.Some? then r.value else old(View()))
      ensures room ==> t in entries
    {
      hide Drop;
      if t !in entries {
        if |entries| >= MAX_ENTRIES {
          return false;
        }
        entries := entries[t := Entry(None, None)];
        return true;
      }
      var slot := entries[t].offered;
      if slot.None? || slot.value >= |cached| {
        return true;
      }
      if cached[slot.value].pins > 0 || cached[slot.value].screen.revision > revision {
        return false;
      }
      DropCached(slot);
      entries := entries[t := entries[t].(offered := None)];
      room := true;
    }

    method InsertOffer(t: string, screen: Baseline, now: int)
      requires t in entries
      modifies this`entries, this`cached, this`bytes, server
      ensures View() == Insert(old(View()), t, screen, now)
    {
      var w := Weight(screen);
      if bytes + w > MAX_SESSION_BYTES || server.bytes + w > MAX_SERVER_BYTES {
        if entries[t].confirmed.None? { entries := entries - {t}; }
        return;
      }
      server.bytes := server.bytes + w;
      bytes := bytes + w;
      entries := entries[t := entries[t].(offered := Some(|cached|))];
      cached := cached + [Cached(screen, w, 0, Some(now + TTL))];
    }

    /** expireLiveScreenBaselines, the timer's callback. */
    method ExpireBaselines(now: int) returns (ghost keys: seq<string>)
      requires Valid()
      modifies this, server
      ensures Valid() && View() == Apply(old(View()), Expire(keys, now))
      ensures !old(closed) ==> forall t :: t in old(entries) ==> Trimmed(old(View()).session, View().session, t, now)
    {
      hide SessionInv;
      hide Trimmed;
      ghost var before := View();
      keys := [];
      if !closed {
        keys := PruneAll(now);
        ExpireTrims(before, keys, now);
      }
      ApplyKeeps(before, Expire(keys, now));
    }

    lemma DropIgnoresEntries(b: Books, entries: map<string, Entry>, slot: Option<nat>)
      ensures Drop(b.(session := b.session.(entries := entries)), slot)
              == Drop(b, slot).(session := Drop(b, slot).session.(entries := entries))
      ensures Drop(b, slot).session.entries == b.session.entries
    {
    }

    method ClearEntry(t: string)
      modifies this`entries, this`cached, this`bytes, server
      ensures View() == ClearOne(old(View()), t)
    {
      hide Drop;
      if t in entries {
        var e := entries[t];
        ghost var b, rest := View(), entries[t := e.(confirmed := None)];
        DropIgnoresEntries(b, entries, e.confirmed);
        DropIgnoresEntries(Drop(b, e.confirmed), rest, e.offered);
        DropCached(e.confirmed);
        DropCached(e.offered);
        assert rest[t := Entry(None, None)] - {t} == entries - {t};
        entries := entries - {t};
      }
    }

    /** clearLiveScreenBaselines */
    method ClearAll() returns (ghost keys: seq<string>)
      requires Valid()
      modifies this, server
      ensures Valid() && entries == map[] && bytes == 0
      ensures View() == Apply(old(View()), Teardown(keys))
    {
      hide SessionInv;
      hide ClearOne;
      ghost var before := View();
      closed := true;
      ghost var start := View();
      keys := [];
      var todo := entries.Keys;
      while todo != {}
        invariant forall t :: t in before.session.entries ==> t in keys || t in todo
        invariant View() == ClearOver(start, keys) && closed
        decreases |todo|
      {
        var t :| t in todo;
        ClearSnoc(start, keys, t);
        todo := todo - {t};
        keys := keys + [t];
        ClearEntry(t);
      }
      ApplyKeeps(before, Teardown(keys));
      ClosedIsEmpty(View().session);
    }
  }

  lemma ClosedIsEmpty(s: Session)
    requires SessionInv(s) && s.closed
    ensures s.entries == map[] && s.bytes == 0
  {
    hide Total;
    hide Listed;
    hide Slots;
    hide Pinned;
    ChargedIsWeight(s, |s.cached|);
    assert s.cached[..|s.cached|] == s.cached;
    forall i: nat ensures !Listed(s, i) { NothingListed(s, i); }
    WeightlessSession(s, |s.cached|);
  }
}
