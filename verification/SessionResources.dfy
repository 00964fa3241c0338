/**
 Resource accounting of one protocol session: channels per kind, event subscriptions, history
 tokens and their reservations, under one limit.

 `live` are the subscriptions open, `pending` the history reservations not yet committed or
 rolled back, `issued` every channel ID handed out: what the counters are supposed to count.
 */
module SessionResources {

  datatype Kind = Attachment | FileTransfer

  datatype Limits = Limits(attachments: nat, files: nat, subscriptions: nat, total: nat)

  datatype Option<+T> = None | Some(value: T)

  type Token = string

  datatype Books = Books(
    nextChannel: nat,
    kinds: map<nat, Kind>,
    attachments: int,
    files: int,
    subscriptions: int,
    reservations: int,
    tokens: set<Token>,
    live: nat,
    pending: nat,
    issued: seq<nat>)

  const FIRST: nat := 6
  const LAST: nat := 65535

  const FRESH: Books := Books(FIRST, map[], 0, 0, 0, 0, {}, 0, 0, [])

  /** totalResourcesLocked */
  function Total(b: Books): int {
    b.attachments + b.files + b.subscriptions + b.reservations + |b.tokens|
  }

  // ------------------------------------------------------------------ operations

  /** The channels of a list that are attachments now. */
  function Replaceable(b: Books, replaced: seq<nat>): seq<nat> {
    if replaced == [] then []
    else
      var c := replaced[|replaced| - 1];
      Replaceable(b, replaced[..|replaced| - 1]) + if c in b.kinds && b.kinds[c] == Attachment then [c] else []
  }

  function Removed(kinds: map<nat, Kind>, channels: seq<nat>): map<nat, Kind> {
    map c | c in kinds && c !in channels :: kinds[c]
  }

  /** reserveAttachmentChannel: one new attachment in the place of some old ones. */
  function ReserveAttachment(b: Books, m: Limits, replaced: seq<nat>): (Books, Option<nat>) {
    var gone := Replaceable(b, replaced);
    var attachments := b.attachments - |gone| + 1;
    if attachments > m.attachments || Total(b) - |gone| + 1 > m.total || b.nextChannel >= LAST then (b, None)
    else
      var c := b.nextChannel + 1;
      (b.(nextChannel := c, kinds := Removed(b.kinds, gone)[c := Attachment], attachments := attachments,
          issued := b.issued + [c]), Some(c))
  }

  /** reserveFileChannel */
  function ReserveFile(b: Books, m: Limits): (Books, Option<nat>) {
    if b.files >= m.files || Total(b) >= m.total || b.nextChannel >= LAST then (b, None)
    else
      var c := b.nextChannel + 1;
      (b.(nextChannel := c, kinds := b.kinds[c := FileTransfer], files := b.files + 1, issued := b.issued + [c]), Some(c))
  }

  /** releaseChannel */
  function ReleaseChannel(b: Books, c: nat, kind: Kind): Books {
    if c !in b.kinds || b.kinds[c] != kind then b
    else
      var b' := b.(kinds := b.kinds - {c});
      match kind
      case Attachment => b'.(attachments := if b.attachments > 0 then b.attachments - 1 else b.attachments)
      case FileTransfer => b'.(files := if b.files > 0 then b.files - 1 else b.files)
  }

  /** reserveEventSubscription */
  function Subscribe(b: Books, m: Limits): (Books, bool) {
    if b.subscriptions >= m.subscriptions || Total(b) >= m.total then (b, false)
    else (b.(subscriptions := b.subscriptions + 1, live := b.live + 1), true)
  }

  /** releaseEventSubscription, by the owner of a live subscription. */
  function Unsubscribe(b: Books): Books {
    if b.live == 0 then b
    else b.(subscriptions := if b.subscriptions > 0 then b.subscriptions - 1 else b.subscriptions, live := b.live - 1)
  }

  /** reserveHistoryToken */
  function ReserveToken(b: Books, m: Limits): (Books, bool) {
    if Total(b) >= m.total then (b, false)
    else (b.(reservations := b.reservations + 1, pending := b.pending + 1), true)
  }

  /** One reservation less, unless there is none. */
  function Used(b: Books): Books
    requires b.pending > 0
  {
    b.(reservations := if b.reservations > 0 then b.reservations - 1 else b.reservations, pending := b.pending - 1)
  }

  /** commitHistoryToken, by a request that reserved. */
  function CommitToken(b: Books, t: Token): Books {
    if b.pending == 0 then b else Used(b).(tokens := b.tokens + {t})
  }

  /** rollbackHistoryTokenReservation */
  function RollbackToken(b: Books): Books {
    if b.pending == 0 then b else Used(b)
  }

  /** forgetHistoryToken */
  function ForgetToken(b: Books, t: Token): Books {
    b.(tokens := b.tokens - {t})
  }

  /** releaseAllHistorySnapshots */
  function ReleaseTokens(b: Books): Books {
    b.(tokens := {}, reservations := 0)
  }

  // ------------------------------------------------------------------ runs

  datatype Step =
    | DoAttach(replaced: seq<nat>)
    | DoFile
    | DoRelease(channel: nat, kind: Kind)
    | DoSubscribe
    | DoUnsubscribe
    | DoReserve
    | DoCommit(token: Token)
    | DoRollback
    | DoForget(token: Token)
    | DoReleaseTokens

  ghost predicate NoRepeats(s: seq<nat>) {
    forall i, j :: 0 <= i < j < |s| ==> s[i] != s[j]
  }

  ghost function Next(b: Books, m: Limits, step: Step): Books {
    match step
    case DoAttach(replaced) => ReserveAttachment(b, m, replaced).0
    case DoFile => ReserveFile(b, m).0
    case DoRelease(c, kind) => ReleaseChannel(b, c, kind)
    case DoSubscribe => Subscribe(b, m).0
    case DoUnsubscribe => Unsubscribe(b)
    case DoReserve => ReserveToken(b, m).0
    case DoCommit(t) => CommitToken(b, t)
    case DoRollback => RollbackToken(b)
    case DoForget(t) => ForgetToken(b, t)
    case DoReleaseTokens => ReleaseTokens(b)
  }

  ghost function Run(b: Books, m: Limits, steps: seq<Step>): Books
    decreases |steps|
  {
    if steps == [] then b else Run(Next(b, m, steps[0]), m, steps[1..])
  }

  // ------------------------------------------------------------------ the invariant

  function ChannelsOf(kinds: map<nat, Kind>, kind: Kind): set<nat> {
    set c | c in kinds && kinds[c] == kind
  }

  /** Every counter counts what it is for. */
  ghost predicate Exact(b: Books) {
    && b.attachments == |ChannelsOf(b.kinds, Attachment)|
    && b.files == |ChannelsOf(b.kinds, FileTransfer)|
    && b.subscriptions == b.live
    && b.reservations == b.pending
  }

  /** Channel IDs are handed out in rising order, and only handed-out ones are in use. */
  ghost predicate Issued(b: Books) {
    && FIRST <= b.nextChannel <= LAST
    && (forall i, j :: 0 <= i < j < |b.issued| ==> b.issued[i] < b.issued[j])
    && (forall i :: 0 <= i < |b.issued| ==> FIRST < b.issued[i] <= b.nextChannel)
    && (forall c :: c in b.kinds ==> c in b.issued)
  }

  ghost predicate Inv(b: Books, m: Limits) {
    Exact(b) && Issued(b) && Within(b, m)
  }

  /** Every limit is respected, per kind and in all. */
  ghost predicate Within(b: Books, m: Limits) {
    && b.attachments <= m.attachments && b.files <= m.files && b.subscriptions <= m.subscriptions
    && Total(b) <= m.total
  }

  // ------------------------------------------------------------------ channels

  lemma {:induction false} ReplaceableHas(b: Books, replaced: seq<nat>, c: nat)
    ensures c in Replaceable(b, replaced) <==> c in replaced && c in b.kinds && b.kinds[c] == Attachment
  {
    if replaced != [] {
      assert replaced == replaced[..|replaced| - 1] + [replaced[|replaced| - 1]];
      ReplaceableHas(b, replaced[..|replaced| - 1], c);
    }
  }

  function Contents(s: seq<nat>): set<nat> {
    set c | c in s
  }

  /** A list names as many channels as it is long exactly when it names none twice. */
  lemma {:induction false} ContentsSize(s: seq<nat>)
    ensures |Contents(s)| <= |s|
    ensures |Contents(s)| == |s| <==> NoRepeats(s)
  {
    if s != [] {
      var init, last := s[..|s| - 1], s[|s| - 1];
      ContentsSize(init);
      assert s == init + [last];
      assert Contents(s) == Contents(init) + {last};
      if last in init {
        var i :| 0 <= i < |init| && init[i] == last;
        assert s[i] == s[|s| - 1];
        assert Contents(s) == Contents(init);
      } else {
        assert last !in Contents(init);
        if NoRepeats(init) { LastIsNew(init, last); }
        if !NoRepeats(init) {
          var i, j :| 0 <= i < j < |init| && init[i] == init[j];
          assert s[i] == s[j];
        }
      }
    }
  }

  lemma LastIsNew(init: seq<nat>, last: nat)
    requires NoRepeats(init) && last !in init
    ensures NoRepeats(init + [last])
  {
  }

  lemma TakenOut(all: set<nat>, some: set<nat>)
    requires some <= all
    ensures |all - some| == |all| - |some|
  {
    assert all == (all - some) + some;
  }

  lemma ChannelAdded(kinds: map<nat, Kind>, c: nat, kind: Kind, other: Kind)
    requires c !in kinds && other != kind
    ensures |ChannelsOf(kinds[c := kind], kind)| == |ChannelsOf(kinds, kind)| + 1
    ensures ChannelsOf(kinds[c := kind], other) == ChannelsOf(kinds, other)
  {
    assert ChannelsOf(kinds[c := kind], kind) == ChannelsOf(kinds, kind) + {c};
  }

  lemma ChannelDropped(kinds: map<nat, Kind>, c: nat, other: Kind)
    requires c in kinds && other != kinds[c]
    ensures |ChannelsOf(kinds - {c}, kinds[c])| == |ChannelsOf(kinds, kinds[c])| - 1
    ensures ChannelsOf(kinds - {c}, other) == ChannelsOf(kinds, other)
  {
    assert c in ChannelsOf(kinds, kinds[c]);
    assert ChannelsOf(kinds - {c}, kinds[c]) == ChannelsOf(kinds, kinds[c]) - {c};
  }

  lemma ChannelsReplaced(b: Books, replaced: seq<nat>)
    ensures var gone := Replaceable(b, replaced);
            && |ChannelsOf(Removed(b.kinds, gone), Attachment)| == |ChannelsOf(b.kinds, Attachment)| - |Contents(gone)|
            && ChannelsOf(Removed(b.kinds, gone), FileTransfer) == ChannelsOf(b.kinds, FileTransfer)
  {
    var gone := Replaceable(b, replaced);
    var all := ChannelsOf(b.kinds, Attachment);
    forall x ensures x in gone <==> x in replaced && x in all { ReplaceableHas(b, replaced, x); }
    hide Replaceable;
    TakenOut(all, Contents(gone));
    assert ChannelsOf(Removed(b.kinds, gone), Attachment) == all - Contents(gone);
  }

  lemma IssuedNext(b: Books, kinds: map<nat, Kind>, b': Books)
    requires Issued(b) && b.nextChannel < LAST && forall c :: c in kinds ==> c in b.kinds || c == b.nextChannel + 1
    requires b'.nextChannel == b.nextChannel + 1 && b'.kinds == kinds && b'.issued == b.issued + [b.nextChannel + 1]
    ensures Issued(b') && b.nextChannel + 1 !in b.kinds
  {
  }

  /** A reservation that succeeds keeps the counters exact exactly when it counts no replaced attachment twice. */
  lemma AttachExactIff(b: Books, m: Limits, replaced: seq<nat>)
    requires Inv(b, m)
    ensures var (b', c) := ReserveAttachment(b, m, replaced);
            && (Exact(b') <==> c.None? || NoRepeats(Replaceable(b, replaced)))
            && (c.None? || NoRepeats(Replaceable(b, replaced)) ==> Inv(b', m))
            && Issued(b')
  {
    hide ChannelsOf;
    hide Issued;
    hide Replaceable;
    hide NoRepeats;
    hide Contents;
    var (b', c) := ReserveAttachment(b, m, replaced);
    if c.Some? {
      var gone := Replaceable(b, replaced);
      ContentsSize(gone);
      ChannelsReplaced(b, replaced);
      IssuedNext(b, b'.kinds, b');
      ChannelAdded(Removed(b.kinds, gone), c.value, Attachment, FileTransfer);
    }
  }

  lemma FileExact(b: Books, m: Limits)
    requires Inv(b, m)
    ensures Inv(ReserveFile(b, m).0, m)
  {
    hide ChannelsOf;
    hide Issued;
    var (b', c) := ReserveFile(b, m);
    if c.Some? {
      IssuedNext(b, b'.kinds, b');
      ChannelAdded(b.kinds, c.value, FileTransfer, Attachment);
    }
  }

  lemma ReleaseExact(b: Books, m: Limits, c: nat, kind: Kind)
    requires Inv(b, m)
    ensures Inv(ReleaseChannel(b, c, kind), m)
  {
    hide ChannelsOf;
    if c in b.kinds && b.kinds[c] == kind {
      ChannelDropped(b.kinds, c, if kind == Attachment then FileTransfer else Attachment);
    }
  }

  lemma CommitExact(b: Books, m: Limits, t: Token)
    requires Inv(b, m)
    ensures Inv(CommitToken(b, t), m)
  {
    assert |b.tokens + {t}| <= |b.tokens| + 1;
  }

  lemma ForgetExact(b: Books, m: Limits, t: Token)
    requires Inv(b, m)
    ensures Inv(ForgetToken(b, t), m)
  {
    assert |b.tokens - {t}| <= |b.tokens|;
  }

  /** Clearing the history snapshots keeps the counters exact exactly when no reservation is under way. */
  lemma ReleaseTokensIff(b: Books, m: Limits)
    requires Inv(b, m)
    ensures Exact(ReleaseTokens(b)) <==> b.pending == 0
    ensures b.pending == 0 ==> Inv(ReleaseTokens(b), m)
  {
  }

  /** The two uses of the accounts that break them. */
  ghost predicate Careless(b: Books, m: Limits, step: Step) {
    || (step.DoReleaseTokens? && b.pending > 0)
    || (step.DoAttach? && ReserveAttachment(b, m, step.replaced).1.Some? && !NoRepeats(Replaceable(b, step.replaced)))
  }

  /** A step keeps the counters exact exactly when it is not one of them. */
  lemma NextKeepsIff(b: Books, m: Limits, step: Step)
    requires Inv(b, m)
    ensures Exact(Next(b, m, step)) <==> !Careless(b, m, step)
    ensures !Careless(b, m, step) ==> Inv(Next(b, m, step), m)
  {
    hide Replaceable;
    hide ReserveAttachment;
    match step
    case DoAttach(replaced) => AttachExactIff(b, m, replaced);
    case DoFile => FileExact(b, m);
    case DoRelease(c, kind) => ReleaseExact(b, m, c, kind);
    case DoSubscribe =>
    case DoUnsubscribe =>
    case DoReserve =>
    case DoCommit(t) => CommitExact(b, m, t);
    case DoRollback =>
    case DoForget(t) => ForgetExact(b, m, t);
    case DoReleaseTokens => ReleaseTokensIff(b, m);
  }

  /** The counters are exact after every step of a run. */
  ghost predicate AlwaysExact(b: Books, m: Limits, steps: seq<Step>)
    decreases |steps|
  {
    Exact(b) && (steps == [] || AlwaysExact(Next(b, m, steps[0]), m, steps[1..]))
  }

  ghost predicate Careful(b: Books, m: Limits, steps: seq<Step>)
    decreases |steps|
  {
    steps == [] || (!Careless(b, m, steps[0]) && Careful(Next(b, m, steps[0]), m, steps[1..]))
  }

  lemma {:induction false} RunKeepsIff(b: Books, m: Limits, steps: seq<Step>)
    requires Inv(b, m)
    ensures AlwaysExact(b, m, steps) <==> Careful(b, m, steps)
    ensures Careful(b, m, steps) ==> Inv(Run(b, m, steps), m)
    decreases |steps|
  {
    assert Exact(b);
    hide Inv;
    hide Next;
    hide Careless;
    hide Exact;
    if steps != [] {
      NextKeepsIff(b, m, steps[0]);
      if Careless(b, m, steps[0]) {
        StartsInexact(Next(b, m, steps[0]), m, steps[1..]);
      } else {
        RunKeepsIff(Next(b, m, steps[0]), m, steps[1..]);
      }
    }
  }

  lemma StartsInexact(b: Books, m: Limits, steps: seq<Step>)
    requires !Exact(b)
    ensures !AlwaysExact(b, m, steps)
  {
  }

  /** Channel numbering does not depend on the counters. */
  lemma NextIssues(b: Books, m: Limits, step: Step)
    requires Issued(b)
    ensures Issued(Next(b, m, step))
  {
    hide Replaceable;
    match step
    case DoAttach(replaced) =>
      var (b', c) := ReserveAttachment(b, m, replaced);
      if c.Some? { IssuedNext(b, b'.kinds, b'); }
    case DoFile =>
      var (b', c) := ReserveFile(b, m);
      if c.Some? { IssuedNext(b, b'.kinds, b'); }
    case _ =>
  }

  lemma {:induction false} RunIssues(b: Books, m: Limits, steps: seq<Step>)
    requires Issued(b)
    ensures Issued(Run(b, m, steps))
    decreases |steps|
  {
    hide Issued;
    hide Next;
    if steps != [] {
      NextIssues(b, m, steps[0]);
      RunIssues(Next(b, m, steps[0]), m, steps[1..]);
    }
  }

  /**
   The counters of a session are exact throughout a run exactly when the run is careful, and
   then every limit holds. No channel ID is issued twice in any run, careful or not.
   */
  lemma AccountsExact(m: Limits, steps: seq<Step>)
    ensures AlwaysExact(FRESH, m, steps) <==> Careful(FRESH, m, steps)
    ensures Careful(FRESH, m, steps) ==> Within(Run(FRESH, m, steps), m)
    ensures var b := Run(FRESH, m, steps);
            && (forall i, j :: 0 <= i < j < |b.issued| ==> b.issued[i] != b.issued[j])
            && (forall c :: c in b.kinds ==> c in b.issued && FIRST < c <= LAST)
  {
    hide Run;
    hide Careful;
    hide AlwaysExact;
    assert ChannelsOf(map[], Attachment) == {} && ChannelsOf(map[], FileTransfer) == {};
    assert Inv(FRESH, m);
    RunKeepsIff(FRESH, m, steps);
    RunIssues(FRESH, m, steps);
  }

  /** The counters never need their guards: what is released was counted. */
  lemma GuardsNeverFire(b: Books, m: Limits)
    requires Inv(b, m)
    ensures b.live > 0 ==> b.subscriptions > 0
    ensures b.pending > 0 ==> b.reservations > 0
    ensures forall c :: c in b.kinds ==> (b.kinds[c] == Attachment ==> b.attachments > 0) && (b.kinds[c] == FileTransfer ==> b.files > 0)
  {
    forall c | c in b.kinds
      ensures (b.kinds[c] == Attachment ==> b.attachments > 0) && (b.kinds[c] == FileTransfer ==> b.files > 0)
    {
      assert c in ChannelsOf(b.kinds, b.kinds[c]);
    }
  }

  /** Clearing snapshots under a pending reservation: the session ends above its limit. */
  lemma EarlyReleaseOverruns(t: Token)
    ensures var m := Limits(0, 0, 1, 1);
            var b := Next(Next(Next(Next(FRESH, m, DoReserve), m, DoReleaseTokens), m, DoSubscribe), m, DoCommit(t));
            Total(b) > m.total
  {
    var m := Limits(0, 0, 1, 1);
    var b1 := Next(FRESH, m, DoReserve);
    assert b1 == FRESH.(reservations := 1, pending := 1);
    var b2 := Next(b1, m, DoReleaseTokens);
    assert b2 == FRESH.(pending := 1);
    var b3 := Next(b2, m, DoSubscribe);
    assert b3 == FRESH.(pending := 1, subscriptions := 1, live := 1);
    var b4 := Next(b3, m, DoCommit(t));
    assert b4.tokens == {t} && |b4.tokens| == 1;
  }

  /** One channel named twice as replaced is taken off twice: the new attachment is not counted. */
  lemma TwiceReplacedMiscounts()
    ensures var m, c := Limits(1, 0, 0, 1), FIRST + 1;
            var b := Next(Next(FRESH, m, DoAttach([])), m, DoAttach([c, c]));
            b.attachments == 0 && ChannelsOf(b.kinds, Attachment) == {c + 1}
  {
    var m, c := Limits(1, 0, 0, 1), FIRST + 1;
    var b1 := Next(FRESH, m, DoAttach([]));
    assert b1.kinds == map[c := Attachment] && b1.attachments == 1 && b1.nextChannel == c;
    BothNamed(b1, c);
    hide Replaceable;
    var b2 := Next(b1, m, DoAttach([c, c]));
    assert b2.kinds == map[c + 1 := Attachment];
  }

  lemma BothNamed(b: Books, c: nat)
    requires c in b.kinds && b.kinds[c] == Attachment
    ensures Replaceable(b, [c, c]) == [c, c]
  {
    assert [c, c][..1] == [c] && [c][..0] == [];
    assert Replaceable(b, [c]) == [c];
  }

  // ------------------------------------------------------------------ what a session holds

  /** A session's resources themselves, whatever the counters say, and the last channel ID issued. */
  datatype Holdings = Holdings(attachments: set<nat>, files: set<nat>, live: nat, pending: nat, tokens: set<Token>, lastId: nat)
  {
    function Size(): nat {
      |attachments| + |files| + live + pending + |tokens|
    }
  }

  function HoldingsOf(b: Books): Holdings {
    Holdings(ChannelsOf(b.kinds, Attachment), ChannelsOf(b.kinds, FileTransfer), b.live, b.pending, b.tokens, b.nextChannel)
  }

  /** The attachments a request replaces. */
  function Named(h: Holdings, replaced: seq<nat>): set<nat> {
    set c | c in h.attachments && c in replaced
  }

  /** A request is granted exactly within the limits, and while channel IDs last. */
  predicate Granted(h: Holdings, m: Limits, step: Step) {
    match step
    case DoAttach(replaced) =>
      && h.lastId < 65535 && |h.attachments - Named(h, replaced)| + 1 <= m.attachments
      && h.Size() - |Named(h, replaced)| + 1 <= m.total
    case DoFile => h.lastId < 65535 && |h.files| < m.files && h.Size() < m.total
    case DoSubscribe => h.live < m.subscriptions && h.Size() < m.total
    case DoReserve => h.Size() < m.total
    case _ => true
  }

  /** What the session holds after a request. */
  function Holding(h: Holdings, m: Limits, step: Step): Holdings {
    if !Granted(h, m, step) then h
    else
      match step
      case DoAttach(replaced) =>
        h.(attachments := h.attachments - Named(h, replaced) + {h.lastId + 1}, lastId := h.lastId + 1)
      case DoFile => h.(files := h.files + {h.lastId + 1}, lastId := h.lastId + 1)
      case DoRelease(c, Attachment) => h.(attachments := h.attachments - {c})
      case DoRelease(c, FileTransfer) => h.(files := h.files - {c})
      case DoSubscribe => h.(live := h.live + 1)
      case DoUnsubscribe => if h.live > 0 then h.(live := h.live - 1) else h
      case DoReserve => h.(pending := h.pending + 1)
      case DoCommit(t) => if h.pending > 0 then h.(pending := h.pending - 1, tokens := h.tokens + {t}) else h
      case DoRollback => if h.pending > 0 then h.(pending := h.pending - 1) else h
      case DoForget(t) => h.(tokens := h.tokens - {t})
      case DoReleaseTokens => h.(tokens := {})
  }

  lemma ExactSize(b: Books)
    requires Exact(b)
    ensures Total(b) == HoldingsOf(b).Size()
  {
  }

  lemma ReplaceableNamed(b: Books, replaced: seq<nat>)
    ensures Contents(Replaceable(b, replaced)) == Named(HoldingsOf(b), replaced)
  {
    forall c ensures c in Contents(Replaceable(b, replaced)) <==> c in Named(HoldingsOf(b), replaced) {
      ReplaceableHas(b, replaced, c);
    }
  }

  lemma InvParts(b: Books, m: Limits)
    requires Inv(b, m)
    ensures Exact(b) && Issued(b)
  {
  }

  lemma Unused(b: Books)
    requires Issued(b)
    ensures b.nextChannel + 1 !in b.kinds
  {
  }

  lemma Added(kinds: map<nat, Kind>, c: nat, kind: Kind, other: Kind)
    requires c !in kinds && other != kind
    ensures ChannelsOf(kinds[c := kind], kind) == ChannelsOf(kinds, kind) + {c}
    ensures ChannelsOf(kinds[c := kind], other) == ChannelsOf(kinds, other)
  {
  }

  lemma TakenAway(kinds: map<nat, Kind>, gone: seq<nat>)
    requires forall c :: c in gone ==> c in kinds && kinds[c] == Attachment
    ensures ChannelsOf(Removed(kinds, gone), Attachment) == ChannelsOf(kinds, Attachment) - Contents(gone)
    ensures ChannelsOf(Removed(kinds, gone), FileTransfer) == ChannelsOf(kinds, FileTransfer)
  {
  }

  /** The decision of a request that names no channel twice. */
  lemma AttachGranted(b: Books, m: Limits, replaced: seq<nat>)
    requires Exact(b) && NoRepeats(Replaceable(b, replaced))
    ensures ReserveAttachment(b, m, replaced).1 == if Granted(HoldingsOf(b), m, DoAttach(replaced)) then Some(b.nextChannel + 1) else None
  {
    var h := HoldingsOf(b);
    ExactSize(b);
    ReplaceableNamed(b, replaced);
    ContentsSize(Replaceable(b, replaced));
    TakenOut(h.attachments, Named(h, replaced));
    hide Replaceable;
    hide ChannelsOf;
    hide Named;
    hide Contents;
    hide NoRepeats;
  }

  lemma AttachedSets(b: Books, replaced: seq<nat>, c: nat)
    requires c !in b.kinds
    ensures var kinds := Removed(b.kinds, Replaceable(b, replaced))[c := Attachment];
            && ChannelsOf(kinds, Attachment) == ChannelsOf(b.kinds, Attachment) - Named(HoldingsOf(b), replaced) + {c}
            && ChannelsOf(kinds, FileTransfer) == ChannelsOf(b.kinds, FileTransfer)
  {
    var gone := Replaceable(b, replaced);
    ReplaceableNamed(b, replaced);
    forall d | d in gone ensures d in b.kinds && b.kinds[d] == Attachment { ReplaceableHas(b, replaced, d); }
    hide Replaceable;
    TakenAway(b.kinds, gone);
    StillUnused(b.kinds, gone, c);
    Added(Removed(b.kinds, gone), c, Attachment, FileTransfer);
    hide ChannelsOf;
    hide Removed;
  }

  lemma AttachHolds(b: Books, m: Limits, replaced: seq<nat>)
    requires Inv(b, m) && NoRepeats(Replaceable(b, replaced))
    ensures var (b', c) := ReserveAttachment(b, m, replaced);
            && (c == if Granted(HoldingsOf(b), m, DoAttach(replaced)) then Some(b.nextChannel + 1) else None)
            && HoldingsOf(b') == Holding(HoldingsOf(b), m, DoAttach(replaced))
  {
    hide Inv;
    hide Exact;
    hide Issued;
    hide NoRepeats;
    hide Granted;
    hide ChannelsOf;
    hide Total;
    hide Replaceable;
    hide Named;
    hide Removed;
    InvParts(b, m);
    AttachGranted(b, m, replaced);
    Unused(b);
    AttachedSets(b, replaced, b.nextChannel + 1);
  }

  lemma StillUnused(kinds: map<nat, Kind>, gone: seq<nat>, c: nat)
    requires c !in kinds
    ensures c !in Removed(kinds, gone)
  {
  }

  /** A request refused although it counts a channel twice would be refused all the more without. */
  lemma RefusedRepeats(b: Books, m: Limits, replaced: seq<nat>)
    requires Inv(b, m) && ReserveAttachment(b, m, replaced).1.None?
    ensures !Granted(HoldingsOf(b), m, DoAttach(replaced))
  {
    var h, gone := HoldingsOf(b), Replaceable(b, replaced);
    ExactSize(b);
    ReplaceableNamed(b, replaced);
    ContentsSize(gone);
    TakenOut(h.attachments, Named(h, replaced));
    hide Replaceable;
  }

  lemma FileGranted(b: Books, m: Limits)
    requires Exact(b)
    ensures ReserveFile(b, m).1 == if Granted(HoldingsOf(b), m, DoFile) then Some(b.nextChannel + 1) else None
  {
    ExactSize(b);
    hide ChannelsOf;
    hide Total;
  }

  lemma FileHolds(b: Books, m: Limits)
    requires Inv(b, m)
    ensures var (b', c) := ReserveFile(b, m);
            && (c == if Granted(HoldingsOf(b), m, DoFile) then Some(b.nextChannel + 1) else None)
            && HoldingsOf(b') == Holding(HoldingsOf(b), m, DoFile)
  {
    hide Inv;
    hide Exact;
    hide Issued;
    hide Granted;
    hide ChannelsOf;
    hide Total;
    InvParts(b, m);
    FileGranted(b, m);
    Unused(b);
    Added(b.kinds, b.nextChannel + 1, FileTransfer, Attachment);
  }

  lemma ReleaseHolds(b: Books, m: Limits, c: nat, kind: Kind)
    ensures HoldingsOf(ReleaseChannel(b, c, kind)) == Holding(HoldingsOf(b), m, DoRelease(c, kind))
  {
    var h, b' := HoldingsOf(b), ReleaseChannel(b, c, kind);
    assert ChannelsOf(b'.kinds, Attachment) == Holding(h, m, DoRelease(c, kind)).attachments;
    assert ChannelsOf(b'.kinds, FileTransfer) == Holding(h, m, DoRelease(c, kind)).files;
  }

  /** Every careful request is granted exactly within the limits, and does to the session's holdings what it should. */
  lemma NextHolds(b: Books, m: Limits, step: Step)
    requires Inv(b, m) && !Careless(b, m, step)
    ensures HoldingsOf(Next(b, m, step)) == Holding(HoldingsOf(b), m, step)
  {
    ExactSize(b);
    match step
    case DoAttach(replaced) =>
      if NoRepeats(Replaceable(b, replaced)) {
        AttachHolds(b, m, replaced);
      } else {
        RefusedRepeats(b, m, replaced);
      }
    case DoFile => FileHolds(b, m);
    case DoRelease(c, kind) => ReleaseHolds(b, m, c, kind);
    case _ =>
      hide ReserveAttachment;
      hide ReserveFile;
      hide ReleaseChannel;
  }

  function HoldingRun(h: Holdings, m: Limits, steps: seq<Step>): Holdings
    decreases |steps|
  {
    if steps == [] then h else HoldingRun(Holding(h, m, steps[0]), m, steps[1..])
  }

  /** After every careful run a session holds exactly what its requests, each granted within the limits, give it. */
  lemma {:induction false} RunHolds(b: Books, m: Limits, steps: seq<Step>)
    requires Inv(b, m) && Careful(b, m, steps)
    ensures HoldingsOf(Run(b, m, steps)) == HoldingRun(HoldingsOf(b), m, steps)
    decreases |steps|
  {
    hide Inv;
    hide Next;
    hide Careless;
    hide Holding;
    hide HoldingsOf;
    if steps != [] {
      NextHolds(b, m, steps[0]);
      NextKeepsIff(b, m, steps[0]);
      RunHolds(Next(b, m, steps[0]), m, steps[1..]);
    }
  }

  // ------------------------------------------------------------------ the session object

  class ResourceTable {
    const limits: Limits
    var nextChannel: nat
    var kinds: map<nat, Kind>
    var attachments: int
    var files: int
    var subscriptions: int
    var reservations: int
    var tokens: set<Token>
    ghost var live: nat
    ghost var pending: nat
    ghost var issued: seq<nat>

    ghost function View(): Books
      reads this
    {
      Books(nextChannel, kinds, attachments, files, subscriptions, reservations, tokens, live, pending, issued)
    }

    constructor (limits: Limits)
      ensures View() == FRESH && this.limits == limits && Inv(View(), limits)
    {
      this.limits := limits;
      nextChannel, kinds, attachments, files, subscriptions, reservations, tokens := FIRST, map[], 0, 0, 0, 0, {};
      live, pending, issued := 0, 0, [];
      new;
      assert ChannelsOf(map[], Attachment) == {} && ChannelsOf(map[], FileTransfer) == {};
    }

    method TotalResources() returns (n: int)
      ensures n == Total(View())
    {
      n := attachments + files + subscriptions + reservations + |tokens|;
    }

    /** reserveAttachmentChannel: counts the replaced ones, then takes them out. */
    method ReserveAttachmentChannel(replaced: seq<nat>) returns (channel: Option<nat>)
      requires Inv(View(), limits)
      modifies this
      ensures (View(), channel) == ReserveAttachment(old(View()), limits, replaced)
      ensures Exact(View()) <==> channel.None? || NoRepeats(Replaceable(old(View()), replaced))
      ensures channel.None? || NoRepeats(Replaceable(old(View()), replaced)) ==> Inv(View(), limits)
      ensures NoRepeats(Replaceable(old(View()), replaced)) ==>
                (channel.Some? <==> Granted(HoldingsOf(old(View())), limits, DoAttach(replaced)))
    {
      hide Granted;
      hide HoldingsOf;
      hide Inv;
      hide Exact;
      hide NoRepeats;
      if NoRepeats(Replaceable(View(), replaced)) { AttachHolds(View(), limits, replaced); }
      AttachExactIff(View(), limits, replaced);
      var gone: seq<nat> := [];
      for n := 0 to |replaced|
        invariant View() == old(View()) && gone == Replaceable(View(), replaced[..n])
      {
        assert replaced[..n + 1][..n] == replaced[..n];
        if replaced[n] in kinds && kinds[replaced[n]] == Attachment { gone := gone + [replaced[n]]; }
      }
      assert replaced[..|replaced|] == replaced;
      hide Replaceable;
      var total := TotalResources();
      if attachments - |gone| + 1 > limits.attachments || total - |gone| + 1 > limits.total || nextChannel >= LAST {
        return None;
      }
      nextChannel := nextChannel + 1;
      attachments := attachments - |gone| + 1;
      var left := TakeOut(kinds, gone);
      kinds := left[nextChannel := Attachment];
      issued := issued + [nextChannel];
      channel := Some(nextChannel);
    }

    method TakeOut(from: map<nat, Kind>, channels: seq<nat>) returns (left: map<nat, Kind>)
      ensures left == Removed(from, channels)
    {
      left := from;
      for n := 0 to |channels|
        invariant left == Removed(from, channels[..n])
      {
        left := left - {channels[n]};
        assert channels[..n + 1] == channels[..n] + [channels[n]];
      }
      assert channels[..|channels|] == channels;
    }

    /** reserveFileChannel */
    method ReserveFileChannel() returns (channel: Option<nat>)
      requires Inv(View(), limits)
      modifies this
      ensures (View(), channel) == ReserveFile(old(View()), limits) && Inv(View(), limits)
      ensures channel.Some? <==> Granted(HoldingsOf(old(View())), limits, DoFile)
    {
      hide Granted;
      hide HoldingsOf;
      hide Inv;
      FileHolds(View(), limits);
      FileExact(View(), limits);
      var total := TotalResources();
      if files >= limits.files || total >= limits.total || nextChannel >= LAST {
        return None;
      }
      nextChannel := nextChannel + 1;
      kinds := kinds[nextChannel := FileTransfer];
      files := files + 1;
      issued := issued + [nextChannel];
      channel := Some(nextChannel);
    }

    /** releaseChannel */
    method Release(c: nat, kind: Kind)
      requires Inv(View(), limits)
      modifies this
      ensures View() == ReleaseChannel(old(View()), c, kind) && Inv(View(), limits)
    {
      hide Inv;
      ReleaseExact(View(), limits, c, kind);
      if c in kinds && kinds[c] == kind {
        kinds := kinds - {c};
        match kind
        case Attachment => if attachments > 0 { attachments := attachments - 1; }
        case FileTransfer => if files > 0 { files := files - 1; }
      }
    }

    /** commitHistoryToken */
    method Commit(t: Token)
      requires Inv(View(), limits) && pending > 0
      modifies this
      ensures View() == CommitToken(old(View()), t) && Inv(View(), limits)
    {
      hide Inv;
      CommitExact(View(), limits, t);
      if reservations > 0 { reservations := reservations - 1; }
      pending := pending - 1;
      tokens := tokens + {t};
    }

    /** releaseAllHistorySnapshots; the counters stay exact exactly when no reservation is under way. */
    method ReleaseAllTokens()
      requires Inv(View(), limits)
      modifies this
      ensures View() == ReleaseTokens(old(View()))
      ensures Exact(View()) <==> old(pending) == 0
      ensures old(pending) == 0 ==> Inv(View(), limits)
    {
      hide Inv;
      hide Exact;
      ReleaseTokensIff(View(), limits);
      tokens := {};
      reservations := 0;
    }

    /** reserveHistoryToken */
    method ReserveHistoryToken() returns (ok: bool)
      requires Inv(View(), limits)
      modifies this
      ensures (View(), ok) == ReserveToken(old(View()), limits) && Inv(View(), limits)
      ensures ok <==> Granted(HoldingsOf(old(View())), limits, DoReserve)
    {
      ExactSize(View());
      hide Inv;
      NextKeepsIff(View(), limits, DoReserve);
      var total := TotalResources();
      ok := total < limits.total;
      if ok {
        reservations := reservations + 1;
        pending := pending + 1;
      }
    }

    /** rollbackHistoryTokenReservation, by a request that reserved. */
    method Rollback()
      requires Inv(View(), limits) && pending > 0
      modifies this
      ensures View() == RollbackToken(old(View())) && Inv(View(), limits)
      ensures reservations == old(reservations) - 1
    {
      GuardsNeverFire(View(), limits);
      hide Inv;
      NextKeepsIff(View(), limits, DoRollback);
      if reservations > 0 { reservations := reservations - 1; }
      pending := pending - 1;
    }

    /** forgetHistoryToken */
    method Forget(t: Token) returns (owned: bool)
      requires Inv(View(), limits)
      modifies this
      ensures View() == ForgetToken(old(View()), t) && Inv(View(), limits)
      ensures owned <==> t in old(tokens)
    {
      hide Inv;
      NextKeepsIff(View(), limits, DoForget(t));
      owned := t in tokens;
      tokens := tokens - {t};
    }

    /** reserveEventSubscription */
    method OpenSubscription() returns (ok: bool)
      requires Inv(View(), limits)
      modifies this
      ensures (View(), ok) == Subscribe(old(View()), limits) && Inv(View(), limits)
      ensures ok <==> Granted(HoldingsOf(old(View())), limits, DoSubscribe)
    {
      ExactSize(View());
      hide Inv;
      NextKeepsIff(View(), limits, DoSubscribe);
      var total := TotalResources();
      ok := subscriptions < limits.subscriptions && total < limits.total;
      if ok {
        subscriptions := subscriptions + 1;
        live := live + 1;
      }
    }

    /** releaseEventSubscription, by the owner of a live one. */
    method CloseSubscription()
      requires Inv(View(), limits) && live > 0
      modifies this
      ensures View() == Unsubscribe(old(View())) && Inv(View(), limits)
      ensures subscriptions == old(subscriptions) - 1
    {
      GuardsNeverFire(View(), limits);
      hide Inv;
      NextKeepsIff(View(), limits, DoUnsubscribe);
      if subscriptions > 0 { subscriptions := subscriptions - 1; }
      live := live - 1;
    }
  }
}
