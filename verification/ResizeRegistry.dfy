/** The server's ownership tables as the object its sessions change under one lock. */
module ResizeRegistry {
  import opened ResizeOwners
  import opened ResizeEffects

  class ResizeTables {
    var attachments: map<Key, Attachment>
    var owners: map<Term, Key>
    var locked: set<Term>
    var epoch: nat
    /** What clients were told so far. */
    ghost var peak: map<Term, nat>
    ghost var last: map<Term, Key>

    ghost function View(): Registry
      reads this
    {
      Registry(attachments, owners, locked, epoch, peak, last)
    }

    constructor ()
      ensures View() == EMPTY
    {
      attachments, owners, locked, epoch, peak, last := map[], map[], {}, 0, map[], map[];
    }

    /** resizeControlForGlobalAttachmentLocked */
    method ReportControl(k: Key, a: Attachment) returns (control: Control)
      modifies this`owners, this`peak, this`last
      ensures Reported(View(), control) == Report(old(View()), k, a)
    {
      var t := a.terminal;
      var owner, told := k, a.epoch;
      if t in owners && owners[t] in attachments && attachments[owners[t]].terminal == t {
        owner := owners[t];
        told := attachments[owner].epoch;
      } else {
        owners := owners[t := k];
      }
      control := Control(owner, told, owner == k && a.policy == Owner && t !in locked, t in locked);
      ghost var highest := Peak(View(), t);
      peak := peak[t := if told > highest then told else highest];
      last := last[t := owner];
    }

    method MakeOwner(k: Key, a: Attachment)
      modifies this`epoch, this`owners, this`attachments
      ensures View() == TakeOwner(old(View()), k, a)
    {
      epoch := epoch + 1;
      owners := owners[a.terminal := k];
      attachments := attachments[k := a.(policy := Owner, epoch := epoch)];
    }

    /** registerProtocolAttachment */
    method RegisterAttachment(k: Key, a: Attachment) returns (control: Control)
      requires a.epoch == 0
      modifies this
      ensures Reported(View(), control) == Register(old(View()), k, a)
      ensures Owned(old(View())) && !Displaces(old(View()), k, a) ==> Owned(View())
      ensures Inv(old(View())) ==>
                (Inv(View()) && Advances(old(View()), a.terminal, control) <==> !Displaces(old(View()), k, a))
      ensures Owned(old(View())) && k !in old(attachments) ==>
                && Seated(old(View()), View(), k, a, a.policy == Owner || a.terminal !in old(owners))
                && Truthful(View(), a.terminal, k, control)
    {
      hide Inv;
      hide Owned;
      hide Report;
      hide Displaces;
      ghost var r := View();
      if Inv(r) { RegisterKeepsIff(r, k, a); }
      if Owned(r) {
        RegisteredOwned(r, k, a);
        if k !in attachments { RegisterSeats(r, k, a); RegisterTrue(r, k, a); }
      }
      hide Seated;
      hide Truthful;
      if a.policy == Owner || a.terminal !in owners {
        MakeOwner(k, a);
      } else {
        attachments := attachments[k := a];
      }
      control := ReportControl(k, attachments[k]);
    }

    lemma RegisteredOwned(r: Registry, k: Key, a: Attachment)
      requires Owned(r)
      ensures !Displaces(r, k, a) ==> Owned(Register(r, k, a).registry)
    {
      if !Displaces(r, k, a) {
        hide Report;
        OwnedRegister(r, k, a);
        var r' := if a.policy == Owner || a.terminal !in r.owners then TakeOwner(r, k, a)
                  else r.(attachments := r.attachments[k := a]);
        hide Owned;
        ReportOwned(r', k);
      }
    }

    lemma UpdatedOwned(r: Registry, k: Key, a: Attachment, takeOwner: bool)
      requires Owned(r)
      ensures Owned(Update(r, k, a, takeOwner).registry)
    {
      hide Report;
      var b := if k in r.attachments
               then r.attachments[k].(policy := a.policy, surface := a.surface, view := a.view) else a;
      OwnedRegister(r, k, b);
      var r' := if takeOwner || b.terminal !in r.owners then TakeOwner(r, k, b)
                else r.(attachments := r.attachments[k := b]);
      hide Owned;
      ReportOwned(r', k);
    }

    /** updateProtocolAttachmentControl */
    method UpdateControl(k: Key, a: Attachment, takeOwner: bool) returns (control: Control)
      requires k !in attachments ==> a.epoch == 0
      modifies this
      ensures Reported(View(), control) == Update(old(View()), k, a, takeOwner)
      ensures Owned(old(View())) ==> Owned(View())
      ensures Inv(old(View())) ==>
                Inv(View()) && Advances(old(View()), if k in old(attachments) then old(attachments)[k].terminal else a.terminal, control)
      ensures Owned(old(View())) ==>
                var b := if k in old(attachments) then a.(terminal := old(attachments)[k].terminal) else a;
                && Seated(old(View()), View(), k, b, takeOwner || b.terminal !in old(owners))
                && Truthful(View(), b.terminal, k, control)
    {
      hide Inv;
      hide Owned;
      hide Report;
      hide Advances;
      ghost var r := View();
      if Inv(r) { UpdateKeeps(r, k, a, takeOwner); }
      if Owned(r) {
        UpdatedOwned(r, k, a, takeOwner);
        UpdateSeats(r, k, a, takeOwner);
        UpdateTrue(r, k, a, takeOwner);
      }
      hide Seated;
      hide Truthful;
      var b := a;
      if k in attachments {
        b := attachments[k].(policy := a.policy, surface := a.surface, view := a.view);
      }
      if takeOwner || b.terminal !in owners {
        MakeOwner(k, b);
      } else {
        attachments := attachments[k := b];
      }
      control := ReportControl(k, attachments[k]);
    }

    /** The first attachment in the table's order that may own the terminal. */
    method FirstCandidate(t: Term) returns (pick: Option<Key>)
      ensures Picks(View(), t, pick)
    {
      var left := attachments.Keys;
      while left != {}
        invariant left <= attachments.Keys
        invariant forall k :: k in attachments && k !in left ==> !Candidate(View(), t, k)
        decreases |left|
      {
        var k :| k in left;
        if attachments[k].terminal == t && attachments[k].policy != Observer {
          return Some(k);
        }
        left := left - {k};
      }
      pick := None;
    }

    /** promoteGlobalResizeOwnerLocked */
    method PromoteOwner(t: Term) returns (ghost pick: Option<Key>)
      modifies this`epoch, this`owners, this`attachments
      ensures Picks(old(View()), t, pick) && View() == Promote(old(View()), t, pick)
    {
      var found := FirstCandidate(t);
      pick := found;
      if found.Some? {
        var k := found.value;
        epoch := epoch + 1;
        attachments := attachments[k := attachments[k].(policy := Owner, epoch := epoch)];
        owners := owners[t := k];
      }
    }

    /** One attachment's turn in unregisterProtocolAttachments. */
    method UnregisterOne(k: Key) returns (ghost pick: Option<Key>)
      modifies this`attachments, this`owners, this`epoch
      ensures View() == UnregisterAll(old(View()), [Detached(k, pick)])
      ensures attachments.Keys == old(attachments).Keys - {k} && locked == old(locked)
    {
      hide Owned;
      pick := None;
      ghost var r := View();
      if k !in attachments {
        Skipped(r, k, pick);
        return;
      }
      var t := attachments[k].terminal;
      attachments := attachments - {k};
      if t in owners && owners[t] == k {
        owners := owners - {t};
        pick := PromoteOwner(t);
        PicksStay(r, k, t, pick);
      } else {
        var found := FirstCandidate(t);
        pick := found;
      }
      DetachOne(r, k, pick);
    }

    lemma Skipped(r: Registry, k: Key, pick: Option<Key>)
      requires k !in r.attachments
      ensures UnregisterAll(r, [Detached(k, pick)]) == r
    {
      assert [Detached(k, pick)][1..] == [];
      assert UnregisterAll(r, []) == r;
    }

    /** Who may be promoted does not depend on who is recorded as owner. */
    lemma PicksStay(r: Registry, k: Key, t: Term, pick: Option<Key>)
      requires Picks(Vacate(Forget(r, k), t), t, pick)
      ensures Picks(Forget(r, k), t, pick)
    {
      if pick.None? {
        forall j ensures !Candidate(Forget(r, k), t, j) { assert !Candidate(Vacate(Forget(r, k), t), t, j); }
      }
    }

    /** unregisterProtocolAttachments: the owner's place is filled again after each one that held it. */
    method UnregisterBatch(keys: seq<Key>) returns (ghost batch: seq<Detached>)
      modifies this`attachments, this`owners, this`epoch
      ensures |batch| == |keys| && View() == UnregisterAll(old(View()), batch)
      ensures (Owned(old(View())) ==> Owned(View())) && (Inv(old(View())) ==> Inv(View()))
      ensures forall i :: 0 <= i < |keys| ==> batch[i].key == keys[i]
      ensures attachments.Keys == old(attachments).Keys - set k | k in keys
    {
      hide Owned;
      hide Inv;
      batch := [];
      for i := 0 to |keys|
        invariant |batch| == i && forall j :: 0 <= j < i ==> batch[j].key == keys[j]
        invariant View() == UnregisterAll(old(View()), batch)
        invariant attachments.Keys == old(attachments).Keys - set k | k in keys[..i]
      {
        assert keys[..i + 1] == keys[..i] + [keys[i]];
        ghost var pick := UnregisterOne(keys[i]);
        UnregisterSnoc(old(View()), batch, Detached(keys[i], pick));
        batch := batch + [Detached(keys[i], pick)];
      }
      assert keys[..|keys|] == keys;
      if Owned(old(View())) { OwnedUnregisterAll(old(View()), batch); }
      if Inv(old(View())) { UnregisterAllKeeps(old(View()), batch); }
    }

    lemma {:induction false} UnregisterSnoc(r: Registry, batch: seq<Detached>, d: Detached)
      ensures UnregisterAll(r, batch + [d]) == UnregisterAll(UnregisterAll(r, batch), [d])
      decreases |batch|
    {
      hide Unregister;
      hide Picks;
      if batch == [] {
        assert batch + [d] == [d];
      } else {
        var b := batch[0];
        assert (batch + [d])[1..] == batch[1..] + [d];
        var r' := if b.key in r.attachments then
                    var t := r.attachments[b.key].terminal;
                    if Picks(Forget(r, b.key), t, b.pick) then Unregister(r, b.key, t, b.pick) else r
                  else r;
        UnregisterSnoc(r', batch[1..], d);
      }
    }

    /** setGlobalResizeLock; None when the attachment is gone. */
    method SetGlobalLock(k: Key, lock: bool) returns (control: Option<Control>)
      modifies this
      ensures (Owned(old(View())) ==> Owned(View())) && (control.None? <==> k !in old(attachments))
      ensures k !in old(attachments) ==> View() == old(View())
      ensures k in old(attachments) ==> Reported(View(), control.value) == SetLock(old(View()), k, lock)
      ensures Inv(old(View())) && k in old(attachments) ==>
                (Inv(View()) && Advances(old(View()), old(attachments)[k].terminal, control.value)
                 <==> old(attachments)[k].terminal in old(owners))
      ensures Owned(old(View())) && k in old(attachments) ==>
                Truthful(View(), old(attachments)[k].terminal, k, control.value) && control.value.sizeLocked == lock
    {
      hide Inv;
      hide Owned;
      hide Report;
      if k !in attachments {
        return None;
      }
      if Owned(View()) { OwnedLock(View(), k, lock); LockTrue(View(), k, lock); LockIsSet(View(), k, lock); }
      hide Truthful;
      if Inv(View()) { LockKeepsIff(View(), k, lock); }
      var t := attachments[k].terminal;
      if (t in locked) != lock {
        epoch := epoch + 1;
        locked := if lock then locked + {t} else locked - {t};
        if t in owners && owners[t] in attachments {
          attachments := attachments[owners[t] := attachments[owners[t]].(epoch := epoch)];
        }
      }
      var c := ReportControl(k, attachments[k]);
      control := Some(c);
    }
  }
}
