/** What every resize-control call does, and that what it tells its client is true. */
module ResizeEffects {
  import opened ResizeOwners

  // ------------------------------------------------------------------ reports are true

  /** A report about k tells who owns the terminal, at which epoch, whether it is locked, and who may resize. */
  ghost predicate Truthful(r: Registry, t: Term, k: Key, c: Control) {
    && t in r.owners && c.owner == r.owners[t] && c.owner in r.attachments && k in r.attachments
    && c.epoch == r.attachments[c.owner].epoch
    && (c.sizeLocked <==> t in r.locked)
    && (c.canResize <==> r.owners[t] == k && r.attachments[k].policy == Owner && t !in r.locked)
  }

  lemma ReportTrue(r: Registry, k: Key)
    requires Owned(r) && k in r.attachments
    ensures var rep := Report(r, k, r.attachments[k]); Truthful(rep.registry, r.attachments[k].terminal, k, rep.control)
  {
  }

  lemma RegisterTrue(r: Registry, k: Key, a: Attachment)
    requires Owned(r) && k !in r.attachments
    ensures Truthful(Register(r, k, a).registry, a.terminal, k, Register(r, k, a).control)
  {
    hide Report;
    hide Truthful;
    OwnedRegister(r, k, a);
    hide Owned;
    ReportTrue(if a.policy == Owner || a.terminal !in r.owners then TakeOwner(r, k, a) else r.(attachments := r.attachments[k := a]), k);
  }

  lemma UpdateTrue(r: Registry, k: Key, a: Attachment, takeOwner: bool)
    requires Owned(r)
    ensures Truthful(Update(r, k, a, takeOwner).registry, if k in r.attachments then r.attachments[k].terminal else a.terminal, k,
                     Update(r, k, a, takeOwner).control)
  {
    hide Report;
    hide Truthful;
    var b := if k in r.attachments
             then r.attachments[k].(policy := a.policy, surface := a.surface, view := a.view) else a;
    OwnedRegister(r, k, b);
    hide Owned;
    ReportTrue(if takeOwner || b.terminal !in r.owners then TakeOwner(r, k, b) else r.(attachments := r.attachments[k := b]), k);
  }

  lemma LockIsSet(r: Registry, k: Key, locked: bool)
    requires k in r.attachments
    ensures r.attachments[k].terminal in SetLock(r, k, locked).registry.locked <==> locked
    ensures SetLock(r, k, locked).control.sizeLocked <==> locked
  {
  }

  /** After every run, whatever step answers, its answer is true of the tables it leaves. */
  lemma AnswersTrue(steps: seq<Step>, step: Step)
    requires Answer(Run(EMPTY, steps), step).Some?
    ensures var r := Run(EMPTY, steps); Truthful(Next(r, step), About(r, step), step.key, Answer(r, step).value.control)
  {
    hide Run;
    var r := Run(EMPTY, steps);
    assert Owned(EMPTY);
    OwnedRun(EMPTY, steps);
    hide Owned;
    hide Register;
    hide Update;
    hide SetLock;
    hide Truthful;
    match step
    case DoRegister(k, a) => RegisterTrue(r, k, a.(epoch := 0));
    case DoUpdate(k, a, takeOwner) => UpdateTrue(r, k, if k in r.attachments then a else a.(epoch := 0), takeOwner);
    case DoLock(k, locked) => LockTrue(r, k, locked);
  }

  lemma LockTrue(r: Registry, k: Key, locked: bool)
    requires Owned(r) && k in r.attachments
    ensures Truthful(SetLock(r, k, locked).registry, r.attachments[k].terminal, k, SetLock(r, k, locked).control)
  {
    hide Report;
    hide Owned;
    hide Truthful;
    var t := r.attachments[k].terminal;
    if (t in r.locked) == locked {
      ReportTrue(r, k);
    } else {
      var r1 := r.(epoch := r.epoch + 1, locked := if locked then r.locked + {t} else r.locked - {t});
      var key := if t in r.owners && r.owners[t] in r.attachments then r.owners[t] else k;
      var epoch := if t in r.owners && r.owners[t] in r.attachments then r.epoch + 1 else r.attachments[k].epoch;
      var r2 := r1.(attachments := r.attachments[key := r.attachments[key].(epoch := epoch)]);
      OwnedEpoch(r, key, epoch, r2);
      ReportTrue(r2, k);
      assert key == k && epoch == r.attachments[k].epoch ==> r2.attachments == r.attachments;
    }
  }

  /** After every run an attachment may resize exactly when it is the recorded owner, as an owner, of an unlocked terminal. */
  lemma MayResizeIff(steps: seq<Step>, k: Key)
    ensures var r := Run(EMPTY, steps);
            MayResize(r, k) <==>
              && k in r.attachments && r.attachments[k].terminal in r.owners && r.owners[r.attachments[k].terminal] == k
              && r.attachments[k].policy == Owner && r.attachments[k].terminal !in r.locked
  {
    hide Run;
    assert Owned(EMPTY);
    OwnedRun(EMPTY, steps);
  }

  // ------------------------------------------------------------------ who owns after a call

  /** An attachment is stored as asked, and is the owner, with the newest epoch, exactly when it claims the terminal. */
  ghost predicate Seated(r: Registry, r': Registry, k: Key, a: Attachment, claims: bool) {
    && r'.attachments.Keys == r.attachments.Keys + {k} && r'.locked == r.locked
    && (forall j :: j in r.attachments && j != k ==> r'.attachments[j] == r.attachments[j])
    && r'.attachments[k].terminal == a.terminal && r'.attachments[k].surface == a.surface && r'.attachments[k].view == a.view
    && r'.attachments[k].policy == (if claims then Owner else a.policy)
    && a.terminal in r'.owners && r'.owners[a.terminal] == (if claims || a.terminal !in r.owners then k else r.owners[a.terminal])
    && (forall t :: t != a.terminal ==> (t in r'.owners <==> t in r.owners) && (t in r.owners ==> r'.owners[t] == r.owners[t]))
    && (claims ==> r'.attachments[k].epoch == r'.epoch > r.epoch)
    && (!claims ==> r'.epoch == r.epoch)
  }

  /** A claim is an owner's, or the first of its terminal. */
  lemma RegisterSeats(r: Registry, k: Key, a: Attachment)
    requires Owned(r) && (k in r.attachments ==> r.attachments[k].terminal == a.terminal)
    ensures Seated(r, Register(r, k, a).registry, k, a, a.policy == Owner || a.terminal !in r.owners)
  {
  }

  /** An update of a known attachment changes policy, surface and view, and its place only when asked to. */
  lemma UpdateSeats(r: Registry, k: Key, a: Attachment, takeOwner: bool)
    requires Owned(r)
    ensures var b := if k in r.attachments then a.(terminal := r.attachments[k].terminal) else a;
            Seated(r, Update(r, k, a, takeOwner).registry, k, b, takeOwner || b.terminal !in r.owners)
  {
  }

  // ------------------------------------------------------------------ locking

  /** A lock request sets the lock of its terminal and no other; owners and attachments stay, and the owner learns a new epoch. */
  lemma LockTakes(r: Registry, k: Key, locked: bool)
    requires Owned(r) && k in r.attachments && r.attachments[k].terminal in r.owners
    ensures var r', t := SetLock(r, k, locked).registry, r.attachments[k].terminal;
            && (t in r'.locked <==> locked) && (forall u :: u != t ==> (u in r'.locked <==> u in r.locked))
            && r'.owners == r.owners && r'.attachments.Keys == r.attachments.Keys
            && (forall j :: j in r.attachments && j != r.owners[t] ==> r'.attachments[j] == r.attachments[j])
            && r'.attachments[r.owners[t]].policy == r.attachments[r.owners[t]].policy
            && ((t in r.locked) != locked ==> r'.attachments[r.owners[t]].epoch == r'.epoch > r.epoch)
            && ((t in r.locked) == locked ==> r'.attachments == r.attachments && r'.epoch == r.epoch)
  {
  }

  // ------------------------------------------------------------------ leaving

  /** Every pick of the batch is what the table's order gives at its turn. */
  ghost predicate Fitting(r: Registry, batch: seq<Detached>)
    decreases |batch|
  {
    batch == []
    || (&& (batch[0].key in r.attachments ==> Picks(Forget(r, batch[0].key), r.attachments[batch[0].key].terminal, batch[0].pick))
        && Fitting(UnregisterAll(r, [batch[0]]), batch[1..]))
  }

  /** One attachment leaves: the others stay, and the terminal it owned has a new owner, if anyone there may own it. */
  lemma LeaveTakes(r: Registry, k: Key, pick: Option<Key>)
    requires Owned(r) && k in r.attachments && Picks(Forget(r, k), r.attachments[k].terminal, pick)
    ensures var r', t := Unregister(r, k, r.attachments[k].terminal, pick), r.attachments[k].terminal;
            && r'.attachments.Keys == r.attachments.Keys - {k} && r'.locked == r.locked
            && (forall j :: j in r'.attachments && !(IsOwner(r, k) && pick == Some(j)) ==> r'.attachments[j] == r.attachments[j])
            && (!IsOwner(r, k) ==> r'.owners == r.owners)
            && (IsOwner(r, k) && pick.Some? ==>
                  r'.owners == r.owners[t := pick.value] && r'.attachments[pick.value].policy == Owner
                  && r'.attachments[pick.value].epoch == r'.epoch > r.epoch)
            && (IsOwner(r, k) && pick.None? ==> r'.owners == r.owners - {t})
            && (IsOwner(r, k) ==> (pick.None? <==> forall j :: j in r'.attachments && r'.attachments[j].terminal == t ==>
                                                  r'.attachments[j].policy == Observer))
  {
    var t := r.attachments[k].terminal;
    if IsOwner(r, k) && pick.None? {
      forall j | j in Forget(r, k).attachments && r.attachments[j].terminal == t ensures r.attachments[j].policy == Observer {
        assert !Candidate(Forget(r, k), t, j);
      }
    }
  }

  lemma SplitBatch(r: Registry, batch: seq<Detached>)
    requires batch != []
    ensures UnregisterAll(r, batch) == UnregisterAll(UnregisterAll(r, [batch[0]]), batch[1..])
  {
    hide Unregister;
    hide Picks;
    var one := [batch[0]];
    assert one[1..] == [];
    assert forall q :: UnregisterAll(q, []) == q;
  }

  lemma OneLeaves(r: Registry, d: Detached)
    requires Owned(r)
    requires d.key in r.attachments ==> Picks(Forget(r, d.key), r.attachments[d.key].terminal, d.pick)
    ensures var r' := UnregisterAll(r, [d]);
            Owned(r') && r'.attachments.Keys == r.attachments.Keys - {d.key} && r'.locked == r.locked
  {
    OwnedUnregisterAll(r, [d]);
    hide Unregister;
    hide Owned;
    if d.key in r.attachments {
      DetachOne(r, d.key, d.pick);
      LeaveTakes(r, d.key, d.pick);
    } else {
      assert [d][1..] == [];
      assert UnregisterAll(r, []) == r;
    }
  }

  /** A whole batch leaves: exactly its attachments are gone. */
  lemma {:induction false} BatchLeaves(r: Registry, batch: seq<Detached>)
    requires Owned(r) && Fitting(r, batch)
    ensures UnregisterAll(r, batch).attachments.Keys == r.attachments.Keys - set d | d in batch :: d.key
    ensures UnregisterAll(r, batch).locked == r.locked
    decreases |batch|
  {
    if batch != [] {
      hide Owned;
      hide Picks;
      SplitBatch(r, batch);
      OneLeaves(r, batch[0]);
      hide UnregisterAll;
      BatchLeaves(UnregisterAll(r, [batch[0]]), batch[1..]);
      assert (set e | e in batch :: e.key) == {batch[0].key} + set e | e in batch[1..] :: e.key by {
        assert batch == [batch[0]] + batch[1..];
      }
    }
  }
}
