/**
 The grant tables as the server's mutable state: each method is one locked section, proved to
 be one step of the state machine, so the guarantees over runs are guarantees about it.
 */
module GrantServer {
  import opened Grants
  import opened GrantProofs
  import GrantEffects

  class GrantTables {
    var closed: bool
    var ops: seq<Op>
    var mapped: map<Grant, nat>
    var pointer: map<nat, nat>
    var entries: nat
    /** When a grant expires. */
    const expiry: Grant -> int
    /** The tables with the clock, the store and the procedures under way. */
    ghost var world: World

    ghost predicate Valid()
      reads this
    {
      && world.closed == closed && world.ops == ops && world.mapped == mapped
      && world.pointer == pointer && world.entries == entries
      && Inv(world, expiry)
    }

    constructor (expiry: Grant -> int)
      ensures Valid() && world == START && this.expiry == expiry
    {
      this.expiry := expiry;
      closed, ops, mapped, pointer, entries, world := false, [], map[], map[], 0, START;
      new;
      StartInv(expiry);
    }

    /** What the invariant says of the procedure at hand. */
    lemma Known(i: nat)
      requires Valid() && i < |world.tasks|
      ensures TaskOk(world, world.tasks[i])
    {
    }

    /** acquireGrantOperation */
    method AcquireOperation(g: Grant) returns (o: nat)
      requires Valid()
      modifies this`ops, this`mapped
      ensures o == Place(world, g) && ops == Acquire(world, g).ops && mapped == Acquire(world, g).mapped
    {
      if g in mapped {
        o := mapped[g];
        assert o < |ops|;
        ops := ops[o := ops[o].(refs := ops[o].refs + 1)];
      } else {
        o := |ops|;
        ops := ops + [Op(g, 0, {}, None, 1)];
        mapped := mapped[g := o];
      }
    }

    /** pruneGrantOperationLocked */
    method PruneLocked(o: nat)
      requires o < |ops|
      modifies this`mapped
      ensures forall w: World :: w.ops == ops && w.mapped == old(mapped) ==> mapped == Prune(w, o).mapped
    {
      var op := ops[o];
      if op.refs != 0 || op.grant !in mapped || mapped[op.grant] != o {
        return;
      }
      if op.transports == {} && op.timer.None? {
        mapped := mapped - {op.grant};
      }
    }

    /** releaseGrantOperation */
    method ReleaseOperation(o: nat)
      requires o < |ops|
      modifies this`ops, this`mapped
      ensures forall w: World :: w.ops == old(ops) && w.mapped == old(mapped) ==>
                ops == Release(w, o).ops && mapped == Release(w, o).mapped
    {
      ops := ops[o := ops[o].(refs := ops[o].refs - 1)];
      PruneLocked(o);
      ghost var was, table := old(ops), old(mapped);
      forall w: World | w.ops == was && w.mapped == table
        ensures ops == Release(w, o).ops && mapped == Release(w, o).mapped
      {
        var w1 := WithOp(w, o, w.ops[o].(refs := w.ops[o].refs - 1));
        assert w1.ops == ops && w1.mapped == table;
      }
    }

    /** epoch++ and detachGrantTransportsLocked: returns the transports to close. */
    method DetachLocked(o: nat) returns (detached: set<nat>)
      requires o < |ops|
      modifies this`ops, this`pointer
      ensures detached == old(ops)[o].transports
      ensures ops == old(ops)[o := Detached(old(ops)[o])]
      ensures pointer == Unpoint(old(pointer), o, old(ops)[o].transports)
    {
      var op := ops[o];
      detached := {};
      var left := op.transports;
      while left != {}
        invariant ops == old(ops) && left <= op.transports && detached == op.transports - left
        invariant pointer.Keys == old(pointer).Keys - set t | t in detached && t in old(pointer) && old(pointer)[t] == o
        invariant forall t :: t in pointer ==> t in old(pointer) && pointer[t] == old(pointer)[t]
        decreases |left|
      {
        var t :| t in left;
        detached := detached + {t};
        if t in pointer && pointer[t] == o { pointer := pointer - {t}; }
        left := left - {t};
      }
      ops := ops[o := op.(epoch := op.epoch + 1, transports := {}, timer := None)];
      assert pointer == Unpoint(old(pointer), o, old(ops)[o].transports);
    }

    /** admitTransport takes its reference. */
    method BeginAdmit(g: Grant) returns (o: nat)
      requires Valid()
      modifies this
      ensures Valid() && world == Next(old(world), Step.BeginAdmit(g), expiry) && o == Place(old(world), g)
    {
      hide Inv;
      hide Acquire;
      NextKeeps(world, Step.BeginAdmit(g), expiry);
      AcquireKeepsRest(world, g);
      o := AcquireOperation(g);
      world := Next(world, Step.BeginAdmit(g), expiry);
    }

    lemma AcquireKeepsRest(w: World, g: Grant)
      ensures Acquire(w, g).closed == w.closed && Acquire(w, g).pointer == w.pointer && Acquire(w, g).entries == w.entries
    {
    }

    /** admitTransport reads the epoch, the store still to be asked. */
    method ReadEpoch(ghost i: nat, o: nat) returns (epoch: nat)
      requires Valid() && i < |world.tasks| && world.tasks[i].Admission? && world.tasks[i].stage.Acquired?
      requires o == world.tasks[i].op
      modifies this`world
      ensures Valid() && world == Next(old(world), Step.ReadEpoch(i), expiry)
      ensures i < |world.tasks| && world.tasks[i].Admission? && world.tasks[i].stage == EpochRead(epoch)
    {
      hide Inv;
      Known(i);
      NextKeeps(world, Step.ReadEpoch(i), expiry);
      epoch := ops[o].epoch;
      world := Next(world, Step.ReadEpoch(i), expiry);
    }

    /** Time passes. */
    ghost method Tick(elapsed: nat)
      requires Valid()
      modifies this`world
      ensures Valid() && world == Next(old(world), Step.Tick(elapsed), expiry)
    {
      hide Inv;
      NextKeeps(world, Step.Tick(elapsed), expiry);
      world := Next(world, Step.Tick(elapsed), expiry);
    }

    /** The store is asked between the two sections: whether it knows the grant, unexpired and not revoked. */
    method QueryStore(ghost i: nat, g: Grant, known: bool, revoked: bool, now: int) returns (active: bool)
      requires Valid() && i < |world.tasks| && world.tasks[i].Admission? && world.tasks[i].stage.EpochRead?
      requires g == world.tasks[i].grant && revoked == (g in world.revoked) && now == world.clock
      modifies this`world
      ensures Valid() && world == Next(old(world), Step.QueryStore(i, known), expiry)
      ensures i < |world.tasks| && world.tasks[i] == old(world).tasks[i].(stage := Queried(old(world).tasks[i].stage.epoch, active))
    {
      hide Inv;
      NextKeeps(world, Step.QueryStore(i, known), expiry);
      active := known && now < expiry(g) && !revoked;
      world := Next(world, Step.QueryStore(i, known), expiry);
    }

    /** The transport is tracked, and the operation's timer armed if it is not. */
    method TrackLocked(i: nat, o: nat)
      requires o < |ops|
      modifies this`ops, this`pointer, this`entries
      ensures pointer == old(pointer)[i := o]
      ensures var op := old(ops)[o];
              && entries == (if op.timer.Some? then old(entries) else old(entries) + 1)
              && ops == old(ops)[o := op.(transports := op.transports + {i},
                                          timer := if op.timer.Some? then op.timer
                                                   else Some(Timer(old(entries), expiry(op.grant))))]
    {
      var op := ops[o];
      pointer := pointer[i := o];
      var timer := op.timer;
      if timer.None? {
        timer := Some(Timer(entries, expiry(op.grant)));
        entries := entries + 1;
      }
      ops := ops[o := op.(transports := op.transports + {i}, timer := timer)];
    }

    /** The decision section. */
    method DecideLocked(i: nat, o: nat, epoch: nat, active: bool, now: int) returns (stage: Stage, detached: set<nat>)
      requires Valid() && i < |world.tasks| && world.tasks[i].Admission? && world.tasks[i].stage == Queried(epoch, active)
      requires o == world.tasks[i].op && now == world.clock
      modifies this
      ensures Valid() && world == Next(old(world), Step.Recheck(i), expiry)
      ensures i < |world.tasks| && world.tasks[i].Admission? && world.tasks[i].stage == stage
    {
      hide Inv;
      hide Unpoint;
      assert o < |ops| && ops[o].grant == world.tasks[i].grant by { Known(i); }
      hide TaskOk;
      ghost var w, w' := world, DecideAdmission(world, i, expiry);
      NextKeeps(w, Step.Recheck(i), expiry);
      assert w' == Next(w, Step.Recheck(i), expiry);
      hide Next;
      detached := {};
      if closed {
        stage := Refused(Shutdown);
      } else if now >= expiry(ops[o].grant) {
        detached := DetachLocked(o);
        stage := Refused(Expired);
      } else if ops[o].epoch != epoch || !active {
        stage := Refused(Revoked);
      } else {
        TrackLocked(i, o);
        stage := Admitted;
      }
      world := w';
    }

    /** admitTransport decides, with the epoch it read, the store's answer and the time now. */
    method Recheck(i: nat, o: nat, epoch: nat, active: bool, now: int) returns (stage: Stage, detached: set<nat>)
      requires Valid() && i < |world.tasks| && world.tasks[i].Admission? && world.tasks[i].stage == Queried(epoch, active)
      requires o == world.tasks[i].op && now == world.clock
      modifies this
      ensures Valid() && world == Next(old(world), Step.Recheck(i), expiry)
      ensures i < |world.tasks| && world.tasks[i].Admission? && world.tasks[i].stage == stage
      ensures o < |old(ops)| && (stage == Admitted <==>
                !old(closed) && now < expiry(old(ops)[o].grant) && old(ops)[o].epoch == epoch && active)
      ensures stage == Admitted ==> GrantEffects.Tracks(world, i, o, expiry)
      ensures stage == Refused(Shutdown) <==> old(closed)
      ensures stage == Refused(Expired) <==> !old(closed) && now >= expiry(old(ops)[o].grant)
    {
      hide Inv;
      hide Next;
      hide GrantEffects.Tracks;
      assert ops[o].grant == world.tasks[i].grant by { Known(i); }
      GrantEffects.RecheckDecides(world, i, expiry);
      stage, detached := DecideLocked(i, o, epoch, active, now);
    }

    /** admitTransport gives its reference back. */
    method EndAdmit(ghost i: nat, o: nat)
      requires Valid() && i < |world.tasks| && world.tasks[i].Admission? && world.tasks[i].holds
      requires (world.tasks[i].stage.Admitted? || world.tasks[i].stage.Refused?) && o == world.tasks[i].op
      modifies this
      ensures Valid() && world == Next(old(world), Step.EndAdmit(i), expiry)
    {
      hide Inv;
      Known(i);
      hide Release;
      NextKeeps(world, Step.EndAdmit(i), expiry);
      ReleaseKeepsRest(WithTask(world, i, Admission(world.tasks[i].grant, o, world.tasks[i].stage, false)), o);
      ReleaseOperation(o);
      world := Next(world, Step.EndAdmit(i), expiry);
    }

    lemma ReleaseKeepsRest(w: World, o: nat)
      requires o < |w.ops|
      ensures Release(w, o).closed == w.closed && Release(w, o).pointer == w.pointer && Release(w, o).entries == w.entries
    {
    }

    /** revokeClientAccess takes its reference. */
    method BeginRevoke(g: Grant) returns (o: nat)
      requires Valid()
      modifies this
      ensures Valid() && world == Next(old(world), Step.BeginRevoke(g), expiry) && o == Place(old(world), g)
      ensures world.tasks == old(world).tasks + [Revocation(g, o, false, true)]
    {
      hide Inv;
      hide Acquire;
      NextKeeps(world, Step.BeginRevoke(g), expiry);
      AcquireKeepsRest(world, g);
      o := AcquireOperation(g);
      world := Next(world, Step.BeginRevoke(g), expiry);
    }

    /** The store takes the revocation. */
    ghost method StoreRevocation(i: nat)
      requires Valid() && i < |world.tasks| && world.tasks[i].Revocation? && world.tasks[i].holds
      modifies this`world
      ensures Valid() && world == Next(old(world), Step.RevokeStored(i), expiry)
      ensures i < |world.tasks| && world.tasks[i] == old(world).tasks[i].(stored := true)
    {
      hide Inv;
      NextKeeps(world, Step.RevokeStored(i), expiry);
      world := Next(world, Step.RevokeStored(i), expiry);
    }

    /** revokeClientAccess bumps the epoch once the store has the revocation. */
    method Bump(ghost i: nat, o: nat) returns (detached: set<nat>)
      requires Valid() && i < |world.tasks| && world.tasks[i].Revocation? && world.tasks[i].holds && world.tasks[i].stored
      requires o == world.tasks[i].op
      modifies this
      ensures Valid() && world == Next(old(world), Step.Bump(i), expiry)
      ensures o < |ops| && ops[o].transports == {} && detached == old(ops)[o].transports
    {
      hide Inv;
      Known(i);
      hide Unpoint;
      NextKeeps(world, Step.Bump(i), expiry);
      detached := DetachLocked(o);
      world := Next(world, Step.Bump(i), expiry);
    }

    /** revokeClientAccess gives its reference back, whether the store took the revocation or not. */
    method EndRevoke(ghost i: nat, o: nat)
      requires Valid() && i < |world.tasks| && world.tasks[i].Revocation? && world.tasks[i].holds && o == world.tasks[i].op
      modifies this
      ensures Valid() && world == Next(old(world), Step.EndRevoke(i), expiry)
    {
      hide Inv;
      Known(i);
      hide Release;
      NextKeeps(world, Step.EndRevoke(i), expiry);
      ReleaseKeepsRest(WithTask(world, i, Revocation(world.tasks[i].grant, o, world.tasks[i].stored, false)), o);
      ReleaseOperation(o);
      world := Next(world, Step.EndRevoke(i), expiry);
    }

    /** untrackTransport takes the transport's pointer to its operation, once. */
    method SwapPointer(transport: nat) returns (o: Option<nat>)
      requires Valid()
      modifies this
      ensures Valid() && world == Next(old(world), Step.SwapPointer(transport), expiry)
      ensures o == (if transport in old(pointer) then Some(old(pointer)[transport]) else None)
      ensures o.Some? ==> world.tasks == old(world).tasks + [Untracking(transport, o.value)]
    {
      hide Inv;
      NextKeeps(world, Step.SwapPointer(transport), expiry);
      o := None;
      if transport in pointer {
        o := Some(pointer[transport]);
        pointer := pointer - {transport};
      }
      world := Next(world, Step.SwapPointer(transport), expiry);
    }

    /** The locked part of untrackTransport. */
    method Remove(ghost i: nat, o: nat, transport: nat)
      requires Valid() && i < |world.tasks| && world.tasks[i] == Untracking(transport, o)
      modifies this
      ensures Valid() && world == Next(old(world), Step.Remove(i), expiry)
    {
      hide Inv;
      Known(i);
      NextKeeps(world, Step.Remove(i), expiry);
      var op := ops[o];
      var left := op.transports - {transport};
      op := op.(transports := left);
      if left == {} && op.timer.Some? { op := op.(timer := None); }
      ops := ops[o := op];
      world := Next(world, Step.Remove(i), expiry);
    }

    /** pruneGrantOperation, after a transport was untracked or its grant expired. */
    method PruneOperation(o: nat)
      requires Valid() && o < |ops|
      modifies this
      ensures Valid() && world == Next(old(world), Step.PruneOne(o), expiry)
    {
      hide Inv;
      NextKeeps(world, Step.PruneOne(o), expiry);
      PruneLocked(o);
      world := Next(world, Step.PruneOne(o), expiry);
    }

    /** A timer's callback starts with the time it read, no lock held. */
    method Fire(o: nat, entry: nat, now: int)
      requires Valid() && now == world.clock
      modifies this`world
      ensures Valid() && world == Next(old(world), Step.Fire(o, entry), expiry)
      ensures world.tasks == old(world).tasks + [Firing(o, entry, now)]
    {
      hide Inv;
      NextKeeps(world, Step.Fire(o, entry), expiry);
      world := Next(world, Step.Fire(o, entry), expiry);
    }

    /** expireGrantOperation, for the timer entry it was armed with. */
    method Expire(ghost i: nat, o: nat, entry: nat, now: int) returns (detached: set<nat>)
      requires Valid() && i < |world.tasks| && world.tasks[i] == Firing(o, entry, now) && o < |ops|
      modifies this
      ensures Valid() && world == Next(old(world), Step.Expire(i), expiry)
      ensures old(ops)[o].timer.None? || old(ops)[o].timer.value.entry != entry ==> world == old(world) && detached == {}
    {
      hide Inv;
      hide Unpoint;
      NextKeeps(world, Step.Expire(i), expiry);
      detached := {};
      var timer := ops[o].timer;
      if timer.Some? && timer.value.entry == entry && now >= timer.value.expiresAt {
        detached := DetachLocked(o);
      }
      world := Next(world, Step.Expire(i), expiry);
    }

    /** The server is marked closed: no admission succeeds from here on. */
    method MarkClosed()
      requires Valid()
      modifies this
      ensures Valid() && world == Next(old(world), Step.Close, expiry) && closed
    {
      hide Inv;
      NextKeeps(world, Step.Close, expiry);
      closed := true;
      world := Next(world, Step.Close, expiry);
    }

    /** Every mapped operation, in the table's order, each with one reference more. */
    method HoldMapped() returns (order: seq<nat>, held: seq<Op>)
      requires forall h :: h in mapped ==> mapped[h] < |ops| && ops[mapped[h]].grant == h
      ensures Enumerates(order, mapped) && held == HoldAll(ops, order)
    {
      order := [];
      var left := mapped.Keys;
      held := ops;
      assert held == HoldAll(ops, order);
      assert Listed(order, left);
      hide Listed;
      hide HoldAll;
      hide Enumerates;
      while left != {}
        invariant left <= mapped.Keys
        invariant held == HoldAll(ops, order)
        invariant Listed(order, left)
        decreases |left|
      {
        var g :| g in left;
        var o := mapped[g];
        ListedNext(order, left, g);
        HoldNext(ops, order, o);
        held := held[o := held[o].(refs := held[o].refs + 1)];
        order := order + [o];
        left := left - {g};
      }
      ListedAll(order);
    }

    /** The list holds the operations of all mapped grants but those left, each once. */
    ghost predicate Listed(order: seq<nat>, left: set<Grant>)
      reads this
    {
      && (forall a :: 0 <= a < |order| ==>
            order[a] < |ops| && ops[order[a]].grant in mapped && ops[order[a]].grant !in left
            && mapped[ops[order[a]].grant] == order[a])
      && (forall a, b :: 0 <= a < b < |order| ==> order[a] != order[b])
      && (forall g :: g in mapped && g !in left ==> mapped[g] in order)
    }

    lemma ListedNext(order: seq<nat>, left: set<Grant>, g: Grant)
      requires forall h :: h in mapped ==> mapped[h] < |ops| && ops[mapped[h]].grant == h
      requires Listed(order, left) && g in left && g in mapped
      ensures Listed(order + [mapped[g]], left - {g}) && mapped[g] !in order
    {
    }

    lemma HoldNext(ops: seq<Op>, order: seq<nat>, o: nat)
      requires o < |ops| && o !in order
      ensures HoldAll(ops, order)[o := HoldAll(ops, order)[o].(refs := HoldAll(ops, order)[o].refs + 1)]
              == HoldAll(ops, order + [o])
    {
    }

    lemma ListedAll(order: seq<nat>)
      requires Listed(order, {})
      ensures Enumerates(order, mapped)
    {
    }

    /** stopGrantOperations begins. */
    method BeginStop() returns (order: seq<nat>)
      requires Valid() && closed
      modifies this
      ensures Valid() && world == Next(old(world), Step.BeginStop(order), expiry)
      ensures world.tasks == old(world).tasks + [Stopping(order, false)]
    {
      assert Unique(world);
      hide Inv;
      hide HoldAll;
      hide Enumerates;
      var held;
      order, held := HoldMapped();
      ops := held;
      NextKeeps(world, Step.BeginStop(order), expiry);
      world := Next(world, Step.BeginStop(order), expiry);
    }

    /** stopGrantOperations detaches one operation. */
    method StopOne(ghost i: nat, o: nat) returns (detached: set<nat>)
      requires Valid() && i < |world.tasks| && world.tasks[i].Stopping? && !world.tasks[i].detached
      requires world.tasks[i].left != [] && world.tasks[i].left[0] == o
      modifies this
      ensures Valid() && world == Next(old(world), Step.StopOne(i), expiry)
    {
      hide Inv;
      Known(i);
      hide Unpoint;
      NextKeeps(world, Step.StopOne(i), expiry);
      detached := DetachLocked(o);
      world := Next(world, Step.StopOne(i), expiry);
    }

    /** stopGrantOperations gives back the reference on the operation it detached. */
    method ReleaseOne(ghost i: nat, o: nat)
      requires Valid() && i < |world.tasks| && world.tasks[i].Stopping? && world.tasks[i].detached
      requires world.tasks[i].left != [] && world.tasks[i].left[0] == o
      modifies this
      ensures Valid() && world == Next(old(world), Step.ReleaseOne(i), expiry)
    {
      hide Inv;
      Known(i);
      hide Release;
      NextKeeps(world, Step.ReleaseOne(i), expiry);
      ReleaseKeepsRest(WithTask(world, i, Stopping(world.tasks[i].left[1..], false)), o);
      ReleaseOperation(o);
      world := Next(world, Step.ReleaseOne(i), expiry);
    }
  }
}
