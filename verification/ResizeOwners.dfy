/**
 Resize ownership of terminals over all protocol sessions: which attachment may resize, and
 the owner epoch clients are told. `Registry` is the server's tables; `peak` and `last`
 remember, per terminal, the highest epoch reported so far and the owner it was reported for.
 */
module ResizeOwners {

  type Term = string

  datatype Key = Key(session: nat, channel: nat)

  datatype Policy = Owner | Follower | Observer

  datatype Attachment = Attachment(terminal: Term, policy: Policy, surface: string, view: string, epoch: nat)

  datatype Option<+T> = None | Some(value: T)

  datatype Registry = Registry(
    attachments: map<Key, Attachment>,
    owners: map<Term, Key>,
    locked: set<Term>,
    epoch: nat,
    peak: map<Term, nat>,
    last: map<Term, Key>)

  const EMPTY: Registry := Registry(map[], map[], {}, 0, map[], map[])

  function Peak(r: Registry, t: Term): nat {
    if t in r.peak then r.peak[t] else 0
  }

  /** What a client is told about a terminal's ownership. */
  datatype Control = Control(owner: Key, epoch: nat, canResize: bool, sizeLocked: bool)

  datatype Reported = Reported(registry: Registry, control: Control)

  // ------------------------------------------------------------------ operations

  /** resizeControlForGlobalAttachmentLocked: without a live owner, the attachment itself is recorded. */
  function Report(r: Registry, k: Key, a: Attachment): Reported {
    var t := a.terminal;
    var live := t in r.owners && r.owners[t] in r.attachments && r.attachments[r.owners[t]].terminal == t;
    var owner := if live then r.owners[t] else k;
    var epoch := if live then r.attachments[owner].epoch else a.epoch;
    var r' := r.(owners := if live then r.owners else r.owners[t := k],
                 peak := r.peak[t := if epoch > Peak(r, t) then epoch else Peak(r, t)],
                 last := r.last[t := owner]);
    Reported(r', Control(owner, epoch, owner == k && a.policy == Owner && t !in r.locked, t in r.locked))
  }

  /** The attachment becomes the recorded owner, with a new epoch. */
  function TakeOwner(r: Registry, k: Key, a: Attachment): Registry {
    r.(epoch := r.epoch + 1, owners := r.owners[a.terminal := k],
       attachments := r.attachments[k := a.(policy := Owner, epoch := r.epoch + 1)])
  }

  /** registerProtocolAttachment */
  function Register(r: Registry, k: Key, a: Attachment): Reported {
    var r' := if a.policy == Owner || a.terminal !in r.owners then TakeOwner(r, k, a)
              else r.(attachments := r.attachments[k := a]);
    Report(r', k, r'.attachments[k])
  }

  /** updateProtocolAttachmentControl; an attachment the server does not know is added. */
  function Update(r: Registry, k: Key, a: Attachment, takeOwner: bool): Reported {
    var b := if k in r.attachments
             then r.attachments[k].(policy := a.policy, surface := a.surface, view := a.view) else a;
    var r' := if takeOwner || b.terminal !in r.owners then TakeOwner(r, k, b)
              else r.(attachments := r.attachments[k := b]);
    Report(r', k, r'.attachments[k])
  }

  predicate Candidate(r: Registry, t: Term, k: Key) {
    k in r.attachments && r.attachments[k].terminal == t && r.attachments[k].policy != Observer
  }

  /** promoteGlobalResizeOwnerLocked; `pick` is the candidate the table's order gives first. */
  function Promote(r: Registry, t: Term, pick: Option<Key>): Registry {
    if pick.Some? && Candidate(r, t, pick.value) then
      var k := pick.value;
      r.(epoch := r.epoch + 1, owners := r.owners[t := k],
         attachments := r.attachments[k := r.attachments[k].(policy := Owner, epoch := r.epoch + 1)])
    else r
  }

  /** `pick` is a candidate whenever there is one. */
  ghost predicate Picks(r: Registry, t: Term, pick: Option<Key>) {
    if pick.Some? then Candidate(r, t, pick.value) else forall k :: !Candidate(r, t, k)
  }

  /** One attachment's turn in unregisterProtocolAttachments, up to the promotion. */
  function Forget(r: Registry, k: Key): Registry {
    r.(attachments := r.attachments - {k})
  }

  function Vacate(r: Registry, t: Term): Registry {
    r.(owners := r.owners - {t})
  }

  function Unregister(r: Registry, k: Key, t: Term, pick: Option<Key>): Registry {
    if t in r.owners && r.owners[t] == k then Promote(Vacate(Forget(r, k), t), t, pick) else Forget(r, k)
  }

  /** setGlobalResizeLock of a known attachment. */
  function SetLock(r: Registry, k: Key, locked: bool): Reported
    requires k in r.attachments
  {
    var t := r.attachments[k].terminal;
    if (t in r.locked) == locked then Report(r, k, r.attachments[k])
    else
      var r1 := r.(epoch := r.epoch + 1, locked := if locked then r.locked + {t} else r.locked - {t});
      var r2 := if t in r.owners && r.owners[t] in r.attachments then
                  r1.(attachments := r.attachments[r.owners[t] := r.attachments[r.owners[t]].(epoch := r.epoch + 1)])
                else r1;
      Report(r2, k, r2.attachments[k])
  }

  // ------------------------------------------------------------------ runs

  datatype Detached = Detached(key: Key, pick: Option<Key>)

  /** Batch detach: the attachments go one by one, each time the owner goes with a promotion. */
  ghost function UnregisterAll(r: Registry, batch: seq<Detached>): Registry
    decreases |batch|
  {
    if batch == [] then r
    else
      var d := batch[0];
      var r' := if d.key in r.attachments then
                  var t := r.attachments[d.key].terminal;
                  if Picks(Forget(r, d.key), t, d.pick) then Unregister(r, d.key, t, d.pick) else r
                else r;
      UnregisterAll(r', batch[1..])
  }

  datatype Step =
    | DoRegister(key: Key, attachment: Attachment)
    | DoUpdate(key: Key, attachment: Attachment, takeOwner: bool)
    | DoUnregister(batch: seq<Detached>)
    | DoLock(key: Key, locked: bool)

  /**
   The report of a step that makes one. A channel is registered once, and no report is made for
   a lock request on an attachment that is gone.
   */
  ghost function Answer(r: Registry, step: Step): Option<Reported> {
    match step
    case DoRegister(k, a) => if k in r.attachments then None else Some(Register(r, k, a.(epoch := 0)))
    case DoUpdate(k, a, takeOwner) => Some(Update(r, k, if k in r.attachments then a else a.(epoch := 0), takeOwner))
    case DoUnregister(_) => None
    case DoLock(k, locked) => if k in r.attachments then Some(SetLock(r, k, locked)) else None
  }

  ghost function Next(r: Registry, step: Step): Registry {
    if step.DoUnregister? then UnregisterAll(r, step.batch)
    else if Answer(r, step).Some? then Answer(r, step).value.registry else r
  }

  ghost function Run(r: Registry, steps: seq<Step>): Registry
    decreases |steps|
  {
    if steps == [] then r else Run(Next(r, steps[0]), steps[1..])
  }

  // ------------------------------------------------------------------ invariants

  /** A recorded owner is a live attachment of its terminal; without one only observers remain. */
  ghost predicate Owned(r: Registry) {
    && (forall t :: t in r.owners ==> r.owners[t] in r.attachments && r.attachments[r.owners[t]].terminal == t)
    && (forall k :: k in r.attachments && r.attachments[k].terminal !in r.owners ==> r.attachments[k].policy == Observer)
  }

  ghost predicate Bounded(r: Registry) {
    && (forall k :: k in r.attachments ==> r.attachments[k].epoch <= r.epoch)
    && (forall t :: t in r.peak ==> r.peak[t] <= r.epoch)
  }

  ghost predicate IsOwner(r: Registry, k: Key)
    requires k in r.attachments
  {
    r.attachments[k].terminal in r.owners && r.owners[r.attachments[k].terminal] == k
  }

  /** An owner's epoch is at least what was reported, and more if it was not the one reported; all others lag behind. */
  ghost predicate InRank(r: Registry, k: Key)
    requires k in r.attachments
  {
    var a := r.attachments[k];
    if IsOwner(r, k)
    then a.epoch >= Peak(r, a.terminal) && a.epoch > 0
         && (a.terminal !in r.last || r.last[a.terminal] != k ==> a.epoch > Peak(r, a.terminal))
    else a.epoch < Peak(r, a.terminal)
  }

  ghost predicate Ranked(r: Registry) {
    forall k :: k in r.attachments ==> InRank(r, k)
  }

  ghost predicate Inv(r: Registry) {
    Owned(r) && Bounded(r) && Ranked(r)
  }

  /** A lock request that reaches a terminal without a recorded owner. */
  ghost predicate Ownerless(r: Registry, step: Step) {
    step.DoLock? && step.key in r.attachments && r.attachments[step.key].terminal !in r.owners
  }

  // ------------------------------------------------------------------ reporting

  /** Behind the owner of t. */
  ghost predicate Behind(r: Registry, t: Term, k: Key)
    requires k in r.attachments
  {
    && r.attachments[k].terminal == t && !IsOwner(r, k)
    && t in r.owners && r.owners[t] in r.attachments
    && r.attachments[k].epoch < r.attachments[r.owners[t]].epoch
  }

  /** Before the report about t: its other attachments lag behind its owner, if not behind the peak. */
  ghost predicate Due(r: Registry, t: Term) {
    t in r.owners && forall k :: k in r.attachments ==> InRank(r, k) || Behind(r, t, k)
  }

  /** The report never falls behind an earlier one, and is ahead of them all when the owner is new. */
  ghost predicate Advances(r: Registry, t: Term, control: Control) {
    && control.epoch >= Peak(r, t)
    && (t !in r.last || r.last[t] != control.owner ==> control.epoch > Peak(r, t))
  }

  lemma ReportKeeps(r: Registry, k: Key, t: Term)
    requires Owned(r) && Bounded(r) && k in r.attachments && r.attachments[k].terminal == t && Due(r, t)
    ensures var rep := Report(r, k, r.attachments[k]);
            && Inv(rep.registry) && Advances(r, t, rep.control)
            && rep.control.owner == r.owners[t] && rep.registry.owners == r.owners
  {
    var r', owner := Report(r, k, r.attachments[k]).registry, r.owners[t];
    assert IsOwner(r, owner) && InRank(r, owner);
    forall j | j in r'.attachments ensures InRank(r', j) {
      assert IsOwner(r', j) <==> IsOwner(r, j);
      assert InRank(r, j) || Behind(r, t, j);
    }
  }

  lemma TakeOwnerDue(r: Registry, k: Key, a: Attachment)
    requires Inv(r) && (k in r.attachments && IsOwner(r, k) ==> r.attachments[k].terminal == a.terminal)
    ensures var r' := TakeOwner(r, k, a);
            Owned(r') && Bounded(r') && Due(r', a.terminal) && Peak(r', a.terminal) == Peak(r, a.terminal)
  {
    var r', t := TakeOwner(r, k, a), a.terminal;
    assert Owned(r') by { hide Bounded; hide Ranked; }
    assert Bounded(r') by { hide Owned; hide Ranked; }
    forall j | j in r'.attachments ensures InRank(r', j) || Behind(r', t, j) {
      if j != k {
        assert r'.attachments[j] == r.attachments[j] && InRank(r, j);
        if r.attachments[j].terminal != t { assert IsOwner(r', j) <==> IsOwner(r, j); } else { assert !IsOwner(r', j); }
      } else {
        assert IsOwner(r', j) && Peak(r, t) <= r.epoch;
      }
    }
  }

  /** A policy change or a newcomer under an existing owner. */
  lemma FollowDue(r: Registry, k: Key, a: Attachment)
    requires Inv(r) && a.terminal in r.owners
    requires k in r.attachments && (IsOwner(r, k) || a.epoch != 0) ==>
               r.attachments[k].terminal == a.terminal && r.attachments[k].epoch == a.epoch
    requires k !in r.attachments ==> a.epoch == 0
    ensures var r' := r.(attachments := r.attachments[k := a]);
            Owned(r') && Bounded(r') && Due(r', a.terminal)
  {
    var r', t := r.(attachments := r.attachments[k := a]), a.terminal;
    assert Owned(r') by { hide Bounded; hide Ranked; }
    assert Bounded(r') by { hide Owned; hide Ranked; }
    var owner := r.owners[t];
    assert IsOwner(r, owner) && InRank(r, owner);
    forall j | j in r'.attachments ensures InRank(r', j) || Behind(r', t, j) {
      if j in r.attachments && (j != k || r.attachments[k].terminal == t) {
        assert InRank(r, j) && (IsOwner(r', j) <==> IsOwner(r, j));
      } else {
        assert !IsOwner(r', j);
      }
    }
  }

  /** A key registered again that is a recorded owner and does not claim the same terminal anew. */
  ghost predicate Displaces(r: Registry, k: Key, a: Attachment) {
    k in r.attachments && IsOwner(r, k) && !(a.policy == Owner && a.terminal == r.attachments[k].terminal)
  }

  lemma RegisterKeeps(r: Registry, k: Key, a: Attachment)
    requires Inv(r) && a.epoch == 0 && !Displaces(r, k, a)
    ensures Inv(Register(r, k, a).registry) && Advances(r, a.terminal, Register(r, k, a).control)
  {
    if k in r.attachments && IsOwner(r, k) { assert a.terminal in r.owners; }
    hide Inv;
    hide Report;
    if a.policy == Owner || a.terminal !in r.owners {
      TakeOwnerDue(r, k, a);
      ReportKeeps(TakeOwner(r, k, a), k, a.terminal);
    } else {
      FollowDue(r, k, a);
      ReportKeeps(r.(attachments := r.attachments[k := a]), k, a.terminal);
    }
  }

  lemma DisplacingBreaks(r: Registry, k: Key, a: Attachment)
    requires Inv(r) && a.epoch == 0 && Displaces(r, k, a)
    ensures !Inv(Register(r, k, a).registry)
  {
    var t, r' := r.attachments[k].terminal, Register(r, k, a).registry;
    assert t in r'.owners && r'.owners[t] == k;
    if a.terminal == t {
      assert r'.attachments[k].epoch == 0 && IsOwner(r', k);
      assert !InRank(r', k);
    } else {
      assert r'.attachments[k].terminal != t;
    }
  }

  /** Registering keeps ranks and reports growing exactly when it displaces no recorded owner of its own key. */
  lemma RegisterKeepsIff(r: Registry, k: Key, a: Attachment)
    requires Inv(r) && a.epoch == 0
    ensures Inv(Register(r, k, a).registry) && Advances(r, a.terminal, Register(r, k, a).control) <==> !Displaces(r, k, a)
  {
    hide Inv;
    hide Register;
    if Displaces(r, k, a) { DisplacingBreaks(r, k, a); } else { RegisterKeeps(r, k, a); }
  }

  lemma UpdateKeeps(r: Registry, k: Key, a: Attachment, takeOwner: bool)
    requires Inv(r) && (k !in r.attachments ==> a.epoch == 0)
    ensures var t := if k in r.attachments then r.attachments[k].terminal else a.terminal;
            var rep := Update(r, k, a, takeOwner);
            Inv(rep.registry) && Advances(r, t, rep.control)
  {
    hide Inv;
    hide Report;
    var b := if k in r.attachments
             then r.attachments[k].(policy := a.policy, surface := a.surface, view := a.view) else a;
    if takeOwner || b.terminal !in r.owners {
      TakeOwnerDue(r, k, b);
      ReportKeeps(TakeOwner(r, k, b), k, b.terminal);
    } else {
      FollowDue(r, k, b);
      ReportKeeps(r.(attachments := r.attachments[k := b]), k, b.terminal);
    }
  }

  /** The owner's epoch moves on. */
  lemma FreshEpochDue(r: Registry, t: Term, locked: set<Term>)
    requires Inv(r) && t in r.owners
    ensures var owner := r.owners[t];
            owner in r.attachments &&
            var r' := r.(epoch := r.epoch + 1, locked := locked,
                         attachments := r.attachments[owner := r.attachments[owner].(epoch := r.epoch + 1)]);
            Owned(r') && Bounded(r') && Due(r', t)
  {
    var owner := r.owners[t];
    var r' := r.(epoch := r.epoch + 1, locked := locked,
                 attachments := r.attachments[owner := r.attachments[owner].(epoch := r.epoch + 1)]);
    assert Owned(r') by { hide Bounded; hide Ranked; }
    assert Bounded(r') by { hide Owned; hide Ranked; }
    forall j | j in r'.attachments ensures InRank(r', j) {
      assert InRank(r, j) && (IsOwner(r', j) <==> IsOwner(r, j));
      if j == owner { assert Peak(r, t) <= r.epoch; }
    }
  }

  /** What the lock request reports on. */
  function Relocked(r: Registry, t: Term, locked: bool): Registry
    requires t in r.owners && r.owners[t] in r.attachments
  {
    if (t in r.locked) == locked then r
    else r.(epoch := r.epoch + 1, locked := if locked then r.locked + {t} else r.locked - {t},
            attachments := r.attachments[r.owners[t] := r.attachments[r.owners[t]].(epoch := r.epoch + 1)])
  }

  lemma InvDue(r: Registry, t: Term)
    requires Inv(r) && t in r.owners
    ensures Owned(r) && Bounded(r) && Due(r, t) && r.owners[t] in r.attachments
  {
    hide InRank;
    hide Bounded;
  }

  lemma RelockedDue(r: Registry, t: Term, locked: bool)
    requires Inv(r) && t in r.owners
    ensures r.owners[t] in r.attachments
    ensures var r' := Relocked(r, t, locked); Owned(r') && Bounded(r') && Due(r', t)
  {
    hide Inv;
    hide Due;
    hide Bounded;
    hide Owned;
    InvDue(r, t);
    FreshEpochDue(r, t, if locked then r.locked + {t} else r.locked - {t});
  }

  lemma RelockedReports(r: Registry, k: Key, t: Term, locked: bool)
    requires k in r.attachments && t == r.attachments[k].terminal && t in r.owners && r.owners[t] in r.attachments
    ensures var r' := Relocked(r, t, locked);
            && k in r'.attachments && r'.attachments[k].terminal == t
            && SetLock(r, k, locked) == Report(r', k, r'.attachments[k])
            && r'.peak == r.peak && r'.last == r.last
  {
    hide Report;
  }

  /** With a recorded owner, locking and unlocking report that owner, with a new epoch when something changed. */
  lemma LockKeeps(r: Registry, k: Key, locked: bool)
    requires Inv(r) && k in r.attachments && r.attachments[k].terminal in r.owners
    ensures var rep := SetLock(r, k, locked);
            Inv(rep.registry) && Advances(r, r.attachments[k].terminal, rep.control)
  {
    hide Inv;
    hide Report;
    hide SetLock;
    hide Owned;
    hide Bounded;
    hide Due;
    hide Relocked;
    var t := r.attachments[k].terminal;
    RelockedDue(r, t, locked);
    RelockedReports(r, k, t, locked);
    ReportKeeps(Relocked(r, t, locked), k, t);
  }

  /** A lock request keeps ranks and reports growing exactly when its terminal has a recorded owner. */
  lemma LockKeepsIff(r: Registry, k: Key, locked: bool)
    requires Inv(r) && k in r.attachments
    ensures var rep := SetLock(r, k, locked);
            Inv(rep.registry) && Advances(r, r.attachments[k].terminal, rep.control)
            <==> r.attachments[k].terminal in r.owners
  {
    if r.attachments[k].terminal in r.owners {
      hide Inv;
      hide SetLock;
      LockKeeps(r, k, locked);
    } else {
      OwnerlessReport(r, k, locked);
    }
  }

  lemma OwnerlessReport(r: Registry, k: Key, locked: bool)
    requires Inv(r) && k in r.attachments && r.attachments[k].terminal !in r.owners
    ensures SetLock(r, k, locked).control.epoch < Peak(r, r.attachments[k].terminal)
  {
    assert !IsOwner(r, k) && InRank(r, k);
  }

  // ------------------------------------------------------------------ detaching

  /** All owners but that of t are live, and every other terminal without one has only observers. */
  ghost predicate OwnedBut(r: Registry, t: Term) {
    && t !in r.owners
    && (forall u :: u in r.owners ==> r.owners[u] in r.attachments && r.attachments[r.owners[u]].terminal == u)
    && (forall k :: k in r.attachments && r.attachments[k].terminal != t && r.attachments[k].terminal !in r.owners ==>
          r.attachments[k].policy == Observer)
  }

  lemma ForgetFollower(r: Registry, k: Key)
    requires Inv(r) && k in r.attachments && !IsOwner(r, k)
    ensures Inv(Forget(r, k))
  {
    var r' := Forget(r, k);
    forall j | j in r'.attachments ensures InRank(r', j) {
      assert InRank(r, j) && (IsOwner(r', j) <==> IsOwner(r, j));
    }
  }

  lemma ForgetOwner(r: Registry, k: Key, t: Term)
    requires Inv(r) && k in r.attachments && r.attachments[k].terminal == t && IsOwner(r, k)
    ensures var r' := Vacate(Forget(r, k), t); Bounded(r') && Ranked(r') && OwnedBut(r', t)
  {
    var r' := Vacate(Forget(r, k), t);
    forall j | j in r'.attachments ensures InRank(r', j) {
      assert InRank(r, j) && (IsOwner(r', j) <==> IsOwner(r, j));
    }
  }

  lemma UnregisterKeeps(r: Registry, k: Key, t: Term, pick: Option<Key>)
    requires Inv(r) && k in r.attachments && r.attachments[k].terminal == t && Picks(Forget(r, k), t, pick)
    ensures Inv(Unregister(r, k, t, pick))
  {
    hide Bounded;
    hide Ranked;
    if IsOwner(r, k) {
      ForgetOwner(r, k, t);
      var r2 := Vacate(Forget(r, k), t);
      if pick.Some? {
        PromoteKeeps(r2, t, pick.value);
      } else {
        forall j | j in r2.attachments && r2.attachments[j].terminal !in r2.owners ensures r2.attachments[j].policy == Observer {
          assert !Candidate(Forget(r, k), t, j);
        }
      }
    } else {
      hide Inv;
      ForgetFollower(r, k);
    }
  }

  lemma PromoteKeeps(r: Registry, t: Term, k: Key)
    requires Bounded(r) && Ranked(r) && OwnedBut(r, t) && Candidate(r, t, k)
    ensures Inv(Promote(r, t, Some(k)))
  {
    var r' := Promote(r, t, Some(k));
    assert Owned(r') by { hide Bounded; hide Ranked; }
    assert Bounded(r') by { hide OwnedBut; hide Ranked; }
    forall j | j in r'.attachments ensures InRank(r', j) {
      assert InRank(r, j);
      if j == k {
        assert IsOwner(r', k) && Peak(r, t) <= r.epoch;
      } else {
        assert r'.attachments[j] == r.attachments[j] && (IsOwner(r', j) <==> IsOwner(r, j));
      }
    }
  }

  lemma {:induction false} UnregisterAllKeeps(r: Registry, batch: seq<Detached>)
    requires Inv(r)
    ensures Inv(UnregisterAll(r, batch))
    decreases |batch|
  {
    hide Inv;
    hide Unregister;
    hide Picks;
    if batch != [] {
      var d := batch[0];
      var r' := r;
      if d.key in r.attachments && Picks(Forget(r, d.key), r.attachments[d.key].terminal, d.pick) {
        UnregisterKeeps(r, d.key, r.attachments[d.key].terminal, d.pick);
        r' := Unregister(r, d.key, r.attachments[d.key].terminal, d.pick);
      }
      UnregisterAllKeeps(r', batch[1..]);
    }
  }

  // ------------------------------------------------------------------ all runs

  /** The terminal a step reports about. */
  ghost function About(r: Registry, step: Step): Term
    requires Answer(r, step).Some?
  {
    match step
    case DoRegister(_, a) => a.terminal
    case DoUpdate(k, a, _) => if k in r.attachments then r.attachments[k].terminal else a.terminal
    case DoLock(k, _) => r.attachments[k].terminal
  }

  lemma NextKeeps(r: Registry, step: Step)
    requires Inv(r) && !Ownerless(r, step)
    ensures Inv(Next(r, step))
    ensures Answer(r, step).Some? ==> Advances(r, About(r, step), Answer(r, step).value.control)
  {
    hide Inv;
    hide Register;
    hide Update;
    hide SetLock;
    hide Advances;
    match step
    case DoRegister(k, a) => if k !in r.attachments { RegisterKeeps(r, k, a.(epoch := 0)); }
    case DoUpdate(k, a, takeOwner) => UpdateKeeps(r, k, if k in r.attachments then a else a.(epoch := 0), takeOwner);
    case DoUnregister(batch) => UnregisterAllKeeps(r, batch);
    case DoLock(k, locked) => if k in r.attachments { LockKeeps(r, k, locked); }
  }

  /** Exactly the reports of steps with an owner to report keep the epoch growing. */
  lemma ReportsAdvanceIff(r: Registry, step: Step)
    requires Inv(r) && Answer(r, step).Some?
    ensures Advances(r, About(r, step), Answer(r, step).value.control) <==> !Ownerless(r, step)
  {
    if Ownerless(r, step) { OwnerlessReport(r, step.key, step.locked); } else { NextKeeps(r, step); }
  }

  /** No lock request of the run reaches a terminal without a recorded owner. */
  ghost predicate Calm(r: Registry, steps: seq<Step>)
    decreases |steps|
  {
    steps == [] || (!Ownerless(r, steps[0]) && Calm(Next(r, steps[0]), steps[1..]))
  }

  /** Every report of the run is the highest so far, and higher when the owner is new. */
  ghost predicate AllAdvance(r: Registry, steps: seq<Step>)
    decreases |steps|
  {
    steps == []
    || ((Answer(r, steps[0]).Some? ==> Advances(r, About(r, steps[0]), Answer(r, steps[0]).value.control))
        && AllAdvance(Next(r, steps[0]), steps[1..]))
  }

  lemma {:induction false} AllAdvanceIff(r: Registry, steps: seq<Step>)
    requires Inv(r)
    ensures AllAdvance(r, steps) <==> Calm(r, steps)
    ensures Calm(r, steps) ==> Inv(Run(r, steps))
    decreases |steps|
  {
    hide Inv;
    hide Next;
    hide Advances;
    if steps != [] {
      if Ownerless(r, steps[0]) {
        ReportsAdvanceIff(r, steps[0]);
      } else {
        hide Ownerless;
        NextKeeps(r, steps[0]);
        AllAdvanceIff(Next(r, steps[0]), steps[1..]);
      }
    }
  }

  /** All reports of a run advance exactly when no lock request of it is ownerless. */
  lemma EpochsGrow(steps: seq<Step>)
    ensures AllAdvance(EMPTY, steps) <==> Calm(EMPTY, steps)
  {
    assert Inv(EMPTY);
    AllAdvanceIff(EMPTY, steps);
  }

  // ------------------------------------------------------------------ ownership in every run

  lemma ReportOwned(r: Registry, k: Key)
    requires Owned(r) && k in r.attachments
    ensures Owned(Report(r, k, r.attachments[k]).registry)
  {
  }

  lemma OwnedRegister(r: Registry, k: Key, a: Attachment)
    requires Owned(r) && (k in r.attachments && IsOwner(r, k) ==> r.attachments[k].terminal == a.terminal)
    ensures Owned(TakeOwner(r, k, a))
    ensures a.terminal in r.owners ==> Owned(r.(attachments := r.attachments[k := a]))
  {
  }

  /** Epochs, locks and reports are no part of ownership. */
  lemma OwnedEpoch(r: Registry, k: Key, epoch: nat, r': Registry)
    requires Owned(r) && k in r.attachments && r'.owners == r.owners
    requires r'.attachments == r.attachments[k := r.attachments[k].(epoch := epoch)]
    ensures Owned(r')
  {
  }

  lemma OwnedLock(r: Registry, k: Key, locked: bool)
    requires Owned(r) && k in r.attachments
    ensures Owned(SetLock(r, k, locked).registry)
  {
    hide Report;
    hide Owned;
    var t := r.attachments[k].terminal;
    ReportOwned(r, k);
    var r1 := r.(epoch := r.epoch + 1, locked := if locked then r.locked + {t} else r.locked - {t});
    var key := if t in r.owners && r.owners[t] in r.attachments then r.owners[t] else k;
    var epoch := if t in r.owners && r.owners[t] in r.attachments then r.epoch + 1 else r.attachments[k].epoch;
    var r2 := r1.(attachments := r.attachments[key := r.attachments[key].(epoch := epoch)]);
    OwnedEpoch(r, key, epoch, r2);
    ReportOwned(r2, k);
    assert key == k && epoch == r.attachments[k].epoch ==> r2.attachments == r.attachments;
  }

  lemma OwnedUnregister(r: Registry, k: Key, t: Term, pick: Option<Key>)
    requires Owned(r) && k in r.attachments && r.attachments[k].terminal == t && Picks(Forget(r, k), t, pick)
    ensures Owned(Unregister(r, k, t, pick))
  {
    var r1 := Forget(r, k);
    if t in r.owners && r.owners[t] == k {
      var r2 := Vacate(r1, t);
      if pick.None? {
        forall j | j in r2.attachments && r2.attachments[j].terminal == t ensures r2.attachments[j].policy == Observer {
          assert !Candidate(r1, t, j);
        }
      }
    }
  }

  lemma {:induction false} OwnedUnregisterAll(r: Registry, batch: seq<Detached>)
    requires Owned(r)
    ensures Owned(UnregisterAll(r, batch))
    decreases |batch|
  {
    hide Owned;
    hide Unregister;
    hide Picks;
    if batch != [] {
      var d := batch[0];
      var r' := r;
      if d.key in r.attachments && Picks(Forget(r, d.key), r.attachments[d.key].terminal, d.pick) {
        OwnedUnregister(r, d.key, r.attachments[d.key].terminal, d.pick);
        r' := Unregister(r, d.key, r.attachments[d.key].terminal, d.pick);
      }
      OwnedUnregisterAll(r', batch[1..]);
    }
  }

  lemma OwnedNext(r: Registry, step: Step)
    requires Owned(r)
    ensures Owned(Next(r, step))
  {
    hide Owned;
    hide Report;
    match step
    case DoRegister(k, a) =>
      var b := a.(epoch := 0);
      if k !in r.attachments {
        OwnedRegister(r, k, b);
        var r' := if b.policy == Owner || b.terminal !in r.owners then TakeOwner(r, k, b)
                  else r.(attachments := r.attachments[k := b]);
        ReportOwned(r', k);
      }
    case DoUpdate(k, a, takeOwner) =>
      var b := if k in r.attachments
               then r.attachments[k].(policy := a.policy, surface := a.surface, view := a.view) else a.(epoch := 0);
      OwnedRegister(r, k, b);
      var r' := if takeOwner || b.terminal !in r.owners then TakeOwner(r, k, b)
                else r.(attachments := r.attachments[k := b]);
      ReportOwned(r', k);
    case DoUnregister(batch) => OwnedUnregisterAll(r, batch);
    case DoLock(k, locked) => if k in r.attachments { OwnedLock(r, k, locked); }
  }

  lemma {:induction false} OwnedRun(r: Registry, steps: seq<Step>)
    requires Owned(r)
    ensures Owned(Run(r, steps))
    decreases |steps|
  {
    hide Owned;
    hide Next;
    if steps != [] {
      OwnedNext(r, steps[0]);
      OwnedRun(Next(r, steps[0]), steps[1..]);
    }
  }

  /** Whether the server would tell this attachment that it may resize. */
  ghost predicate MayResize(r: Registry, k: Key) {
    k in r.attachments && Report(r, k, r.attachments[k]).control.canResize
  }

  /**
   In every run whatever: a recorded owner is a live attachment of its terminal, a terminal
   without one has only observers, and of two attachments of a terminal at most one may resize.
   */
  lemma OneOwnerAtMost(steps: seq<Step>, j: Key, k: Key)
    ensures var r := Run(EMPTY, steps);
            && (forall t :: t in r.owners ==> r.owners[t] in r.attachments && r.attachments[r.owners[t]].terminal == t)
            && (j in r.attachments && r.attachments[j].terminal !in r.owners ==> r.attachments[j].policy == Observer)
            && (MayResize(r, j) && MayResize(r, k) && r.attachments[j].terminal == r.attachments[k].terminal ==> j == k)
  {
    hide Run;
    assert Owned(EMPTY);
    OwnedRun(EMPTY, steps);
  }

  // ------------------------------------------------------------------ the ownerless lock request

  /** A run that reports a falling epoch: the owner leaves, an observer stays and locks. */
  lemma EpochCanFall(t: Term, a: Key, b: Key)
    requires a != b
    ensures exists steps, step ::
              var r := Run(EMPTY, steps);
              Answer(r, step).Some? && Answer(r, step).value.control.epoch < Peak(r, About(r, step))
  {
    var owner, observer := Attachment(t, Owner, "", "", 0), Attachment(t, Observer, "", "", 0);
    var r1 := Next(EMPTY, DoRegister(a, owner));
    assert r1 == Registry(map[a := owner.(epoch := 1)], map[t := a], {}, 1, map[t := 1], map[t := a]);
    var r2 := Next(r1, DoRegister(b, owner));
    assert r2.attachments == map[a := owner.(epoch := 1), b := owner.(epoch := 2)] && r2.owners == map[t := b];
    assert r2.peak == map[t := 2];
    var r3 := Next(r2, DoUpdate(a, observer, false));
    assert r3.attachments == map[a := observer.(epoch := 1), b := owner.(epoch := 2)] && r3.owners == map[t := b];
    var leave := DoUnregister([Detached(b, None)]);
    var r4 := Next(r3, leave);
    DetachOne(r3, b, None);
    assert Forget(r3, b).attachments == map[a := observer.(epoch := 1)];
    assert forall k :: !Candidate(Forget(r3, b), t, k);
    assert r4.attachments == map[a := observer.(epoch := 1)] && t !in r4.owners && r4.peak == map[t := 2];
    var steps := [DoRegister(a, owner), DoRegister(b, owner), DoUpdate(a, observer, false), leave];
    hide Next;
    Four(EMPTY, DoRegister(a, owner), DoRegister(b, owner), DoUpdate(a, observer, false), leave);
    assert Answer(r4, DoLock(a, true)).Some?;
    assert Answer(r4, DoLock(a, true)).value.control.epoch == 1 && Peak(r4, t) == 2;
    assert Run(EMPTY, steps) == r4;
  }

  lemma DetachOne(r: Registry, k: Key, pick: Option<Key>)
    requires k in r.attachments && Picks(Forget(r, k), r.attachments[k].terminal, pick)
    ensures UnregisterAll(r, [Detached(k, pick)]) == Unregister(r, k, r.attachments[k].terminal, pick)
  {
    hide Unregister;
    var batch := [Detached(k, pick)];
    assert batch[1..] == [];
    var r' := Unregister(r, k, r.attachments[k].terminal, pick);
    assert UnregisterAll(r', []) == r';
  }

  lemma Four(r: Registry, a: Step, b: Step, c: Step, d: Step)
    ensures Run(r, [a, b, c, d]) == Next(Next(Next(Next(r, a), b), c), d)
  {
    hide Next;
    assert [a, b, c, d][1..] == [b, c, d] && [b, c, d][1..] == [c, d] && [c, d][1..] == [d] && [d][1..] == [];
    assert Run(r, [a, b, c, d]) == Run(Next(r, a), [b, c, d]);
    assert Run(Next(r, a), [b, c, d]) == Run(Next(Next(r, a), b), [c, d]);
    assert Run(Next(Next(r, a), b), [c, d]) == Run(Next(Next(Next(r, a), b), c), [d]);
    assert Run(Next(Next(Next(r, a), b), c), [d]) == Run(Next(Next(Next(Next(r, a), b), c), d), []);
  }
}
