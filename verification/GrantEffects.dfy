/** What the grant procedures achieve: who is admitted, who is refused and why, and what each end takes away. */
module GrantEffects {
  import opened Grants
  import opened GrantProofs

  // ------------------------------------------------------------------ the decision

  /** The transport is among the operation's, points to it, and the operation's timer is armed for the grant's expiry. */
  ghost predicate Tracks(w: World, i: nat, o: nat, expiry: Grant -> int) {
    && o < |w.ops| && i in w.ops[o].transports && i in w.pointer && w.pointer[i] == o
    && w.ops[o].timer.Some? && w.ops[o].timer.value.expiresAt == expiry(w.ops[o].grant)
  }

  /** The four answers of an admission, each with exactly its cause. */
  lemma RecheckDecides(w: World, i: nat, expiry: Grant -> int)
    requires Inv(w, expiry) && i < |w.tasks| && w.tasks[i].Admission? && w.tasks[i].stage.Queried?
    ensures w.tasks[i].op < |w.ops| && |Next(w, Recheck(i), expiry).tasks| == |w.tasks|
    ensures var t, w' := w.tasks[i], Next(w, Recheck(i), expiry);
            var now, sameEpoch := w'.tasks[i], w.ops[t.op].epoch == t.stage.epoch;
            && now.Admission? && now.grant == t.grant && now.op == t.op && now.holds == t.holds
            && (now.stage == Admitted <==> !w.closed && w.clock < expiry(t.grant) && sameEpoch && t.stage.active)
            && (now.stage == Refused(Shutdown) <==> w.closed)
            && (now.stage == Refused(Expired) <==> !w.closed && w.clock >= expiry(t.grant))
            && (now.stage == Refused(Revoked) <==> !w.closed && w.clock < expiry(t.grant) && !(sameEpoch && t.stage.active))
    ensures var t, w' := w.tasks[i], Next(w, Recheck(i), expiry);
            && (w'.tasks[i].stage == Admitted ==>
                  Tracks(w', i, t.op, expiry) && w'.ops[t.op].transports == w.ops[t.op].transports + {i})
            && (w'.tasks[i].stage == Refused(Expired) ==> w'.ops[t.op].transports == {} && t.grant in w'.ended)
            && (w'.tasks[i].stage == Refused(Shutdown) || w'.tasks[i].stage == Refused(Revoked) ==> w'.ops == w.ops)
  {
    assert TaskOk(w, w.tasks[i]);
    assert Timed(w, expiry);
    hide Inv;
    hide Unpoint;
  }

  /** A grant that is known, not revoked and not expired is admitted by an open server when nothing comes between. */
  lemma AdmissionSucceeds(w: World, g: Grant, expiry: Grant -> int)
    requires Inv(w, expiry) && !w.closed && w.clock < expiry(g) && g !in w.revoked
    ensures var i := |w.tasks|;
            var w' := Next(Next(Next(Next(w, BeginAdmit(g), expiry), ReadEpoch(i), expiry), QueryStore(i, true), expiry), Recheck(i), expiry);
            i < |w'.tasks| && w'.tasks[i].Admission? && w'.tasks[i].grant == g && w'.tasks[i].stage == Admitted
            && Tracks(w', i, w'.tasks[i].op, expiry)
  {
    var i := |w.tasks|;
    var w1 := Next(w, BeginAdmit(g), expiry);
    BeginTakes(w, g, expiry);
    NextKeeps(w, BeginAdmit(g), expiry);
    var w2 := Next(w1, ReadEpoch(i), expiry);
    NextKeeps(w1, ReadEpoch(i), expiry);
    var w3 := Next(w2, QueryStore(i, true), expiry);
    NextKeeps(w2, QueryStore(i, true), expiry);
    hide Inv;
    hide Acquire;
    RecheckDecides(w3, i, expiry);
  }

  /** A procedure begins with one more reference on the operation mapped for its grant. */
  lemma BeginTakes(w: World, g: Grant, expiry: Grant -> int)
    requires Inv(w, expiry)
    ensures var w' := Next(w, BeginAdmit(g), expiry);
            && w'.tasks == w.tasks + [Admission(g, Place(w, g), Acquired, true)] && Began(w, w', g)
    ensures var w' := Next(w, BeginRevoke(g), expiry);
            && w'.tasks == w.tasks + [Revocation(g, Place(w, g), false, true)] && Began(w, w', g)
  {
  }

  ghost predicate Began(w: World, w': World, g: Grant) {
    var o := Place(w, g);
    && o < |w'.ops| && g in w'.mapped && w'.mapped[g] == o && w'.ops[o].grant == g
    && w'.ops[o].refs == (if o < |w.ops| then w.ops[o].refs else 0) + 1
    && w'.closed == w.closed && w'.clock == w.clock && w'.revoked == w.revoked
  }

  // ------------------------------------------------------------------ revoking

  /** A revocation that the store takes ends its grant: its transports are gone, and its epoch has moved. */
  lemma RevocationEnds(w: World, g: Grant, expiry: Grant -> int)
    requires Inv(w, expiry)
    ensures var i := |w.tasks|;
            var w' := Next(Next(Next(w, BeginRevoke(g), expiry), RevokeStored(i), expiry), Bump(i), expiry);
            && g in w'.ended && g in w'.revoked
            && Place(w, g) < |w'.ops| && w'.ops[Place(w, g)].transports == {} && w'.ops[Place(w, g)].timer.None?
            && (Place(w, g) < |w.ops| ==> w'.ops[Place(w, g)].epoch > w.ops[Place(w, g)].epoch)
            && (forall t :: t in w'.pointer && w'.pointer[t] == Place(w, g) ==> Place(w, g) < |w.ops| && t !in w.ops[Place(w, g)].transports)
  {
    BeginTakes(w, g, expiry);
  }

  // ------------------------------------------------------------------ expiring

  /** The callback of a current timer whose time has come ends the grant; before that time it changes nothing. */
  lemma TimerEnds(w: World, o: nat, expiry: Grant -> int)
    requires Inv(w, expiry) && o < |w.ops| && w.ops[o].timer.Some?
    ensures var i := |w.tasks|;
            var w1 := Next(w, Fire(o, w.ops[o].timer.value.entry), expiry);
            var w' := Next(w1, Expire(i), expiry);
            if w.clock >= expiry(w.ops[o].grant)
            then w.ops[o].grant in w'.ended && w'.ops[o].transports == {} && w'.ops[o].timer.None? && w'.ops[o].epoch > w.ops[o].epoch
            else w' == w1 && w'.ops == w.ops
  {
  }

  // ------------------------------------------------------------------ untracking

  /** Untracking takes the transport away, and the timer with the last one. */
  lemma UntrackTakes(w: World, t: nat, expiry: Grant -> int)
    requires Inv(w, expiry) && t in w.pointer
    ensures w.pointer[t] < |w.ops|
    ensures var o, w1 := w.pointer[t], Next(w, SwapPointer(t), expiry);
            var w' := Next(w1, Remove(|w.tasks|), expiry);
            && t !in w'.pointer && w'.pointer == w.pointer - {t}
            && w'.ops[o].transports == w.ops[o].transports - {t}
            && (w'.ops[o].timer.Some? <==> w'.ops[o].transports != {})
  {
  }

  lemma AcquireLeaves(w: World, g: Grant)
    ensures |Acquire(w, g).ops| >= |w.ops|
    ensures forall o :: 0 <= o < |w.ops| ==> Acquire(w, g).ops[o].transports == w.ops[o].transports
  {
  }

  lemma ReleaseLeaves()
    ensures forall w: World, q: nat :: q < |w.ops| ==> |Release(w, q).ops| == |w.ops|
    ensures forall w: World, q: nat, o :: q < |w.ops| && 0 <= o < |w.ops| ==> Release(w, q).ops[o].transports == w.ops[o].transports
  {
  }

  lemma PruneLeaves()
    ensures forall w: World, q: nat :: q < |w.ops| ==> Prune(w, q).ops == w.ops
  {
  }

  /** The steps that take tracked transports away: untracking, a bump, an expiry or the stop pass. */
  ghost predicate TakesAway(w: World, step: Step, t: nat, o: nat, expiry: Grant -> int)
    requires o < |w.ops|
  {
    match step
    case Remove(i) => i < |w.tasks| && w.tasks[i] == Untracking(t, o)
    case Bump(i) => i < |w.tasks| && w.tasks[i].Revocation? && w.tasks[i].op == o && w.tasks[i].stored
    case Expire(i) => i < |w.tasks| && w.tasks[i].Firing? && w.tasks[i].op == o && w.tasks[i].now >= expiry(w.ops[o].grant)
    case Recheck(i) => i < |w.tasks| && w.tasks[i].Admission? && w.tasks[i].op == o && w.clock >= expiry(w.ops[o].grant)
    case StopOne(i) => w.closed
    case _ => false
  }

  /** A transport stays tracked until one of them comes. */
  lemma TrackedUntil(w: World, step: Step, t: nat, o: nat, expiry: Grant -> int)
    requires Inv(w, expiry) && o < |w.ops| && t in w.ops[o].transports
    ensures o < |Next(w, step, expiry).ops|
    ensures t !in Next(w, step, expiry).ops[o].transports ==> TakesAway(w, step, t, o, expiry)
  {
    if step.Recheck? || step.StopOne? || step.Expire? || step.Bump? {
      assert TasksOk(w) && Timed(w, expiry);
      hide Inv;
      DetachingSteps(w, step, t, o, expiry);
    } else {
      hide Inv;
      OtherSteps(w, step, t, o, expiry);
    }
  }

  lemma DetachLeaves(w: World, q: nat)
    requires q < |w.ops|
    ensures |Detach(w, q).ops| == |w.ops|
    ensures forall o :: 0 <= o < |w.ops| && o != q ==> Detach(w, q).ops[o] == w.ops[o]
  {
  }

  lemma DetachingSteps(w: World, step: Step, t: nat, o: nat, expiry: Grant -> int)
    requires TasksOk(w) && Timed(w, expiry) && o < |w.ops| && t in w.ops[o].transports
    requires step.Recheck? || step.StopOne? || step.Expire? || step.Bump?
    ensures o < |Next(w, step, expiry).ops|
    ensures t !in Next(w, step, expiry).ops[o].transports ==> TakesAway(w, step, t, o, expiry)
  {
    hide Timed;
    if step.i < |w.tasks| {
      assert TaskOk(w, w.tasks[step.i]);
      hide TasksOk;
      match step
      case Recheck(i) => if w.tasks[i].Admission? { DetachLeaves(w, w.tasks[i].op); hide Detach; }
      case StopOne(i) => if w.tasks[i].Stopping? { hide Detach; }
      case Expire(i) => ExpireTakes(w, i, t, o, expiry);
      case Bump(i) => if w.tasks[i].Revocation? { DetachLeaves(w, w.tasks[i].op); hide Detach; }
      case _ =>
    }
  }

  lemma ExpireTakes(w: World, i: nat, t: nat, o: nat, expiry: Grant -> int)
    requires Timed(w, expiry) && o < |w.ops| && t in w.ops[o].transports && i < |w.tasks|
    ensures o < |Next(w, Expire(i), expiry).ops|
    ensures t !in Next(w, Expire(i), expiry).ops[o].transports ==> TakesAway(w, Expire(i), t, o, expiry)
  {
    if w.tasks[i].Firing? && w.tasks[i].op < |w.ops| { DetachLeaves(w, w.tasks[i].op); hide Detach; }
  }

  lemma OtherSteps(w: World, step: Step, t: nat, o: nat, expiry: Grant -> int)
    requires o < |w.ops| && t in w.ops[o].transports
    requires !(step.Recheck? || step.StopOne? || step.Expire? || step.Bump?)
    ensures o < |Next(w, step, expiry).ops|
    ensures t !in Next(w, step, expiry).ops[o].transports ==> TakesAway(w, step, t, o, expiry)
  {
    hide Acquire;
    hide Release;
    hide Prune;
    hide Enumerates;
    match step
    case BeginAdmit(g) => AcquireLeaves(w, g);
    case BeginRevoke(g) => AcquireLeaves(w, g);
    case EndAdmit(i) => ReleaseLeaves();
    case EndRevoke(i) => ReleaseLeaves();
    case ReleaseOne(i) => ReleaseLeaves();
    case PruneOne(_) => PruneLeaves();
    case _ =>
  }

  // ------------------------------------------------------------------ letting go

  predicate Unused(op: Op) {
    op.refs == 0 && op.transports == {} && op.timer.None?
  }

  /** Pruning takes exactly an unused operation out of the table. */
  lemma PruneTakes(w: World, o: nat, expiry: Grant -> int)
    requires Inv(w, expiry) && o < |w.ops|
    ensures var w', g := Next(w, PruneOne(o), expiry), w.ops[o].grant;
            && w'.ops == w.ops
            && (if Unused(w.ops[o]) && g in w.mapped && w.mapped[g] == o then w'.mapped == w.mapped - {g} else w'.mapped == w.mapped)
  {
  }

  /** An admission or a revocation that ends gives one reference back, and takes the operation out of the table with the last. */
  ghost predicate LetGo(w: World, w': World, i: nat, o: nat)
    requires i < |w.tasks| && o < |w.ops|
  {
    && |w'.tasks| == |w.tasks| && |w'.ops| == |w.ops|
    && w'.ops[o] == w.ops[o].(refs := w.ops[o].refs - 1)
    && (w.ops[o].grant in w'.mapped <==> !Unused(w'.ops[o]))
  }

  lemma EndTakes(w: World, i: nat, expiry: Grant -> int)
    requires Inv(w, expiry) && i < |w.tasks|
    requires (w.tasks[i].Admission? && w.tasks[i].holds && (w.tasks[i].stage.Admitted? || w.tasks[i].stage.Refused?))
             || (w.tasks[i].Revocation? && w.tasks[i].holds)
    ensures w.tasks[i].op < |w.ops|
    ensures var w' := Next(w, if w.tasks[i].Admission? then EndAdmit(i) else EndRevoke(i), expiry);
            && LetGo(w, w', i, w.tasks[i].op)
            && (w'.tasks[i].Admission? || w'.tasks[i].Revocation?) && !w'.tasks[i].holds
  {
    assert TaskOk(w, w.tasks[i]);
    HeldIsMapped(w, i, w.tasks[i].op);
  }

  // ------------------------------------------------------------------ stopping

  /** The stop pass takes every operation of the table in hand, and empties the one it is at. */
  lemma StopTakes(w: World, order: seq<nat>, expiry: Grant -> int)
    requires Inv(w, expiry) && w.closed && Enumerates(order, w.mapped)
    ensures var w' := Next(w, BeginStop(order), expiry);
            && w'.tasks == w.tasks + [Stopping(order, false)]
            && (forall o :: 0 <= o < |w.ops| && w.ops[o].transports != {} ==> o in order)
  {
    forall o | 0 <= o < |w.ops| && w.ops[o].transports != {} ensures o in order {
      assert Busy(w.ops[o]);
    }
  }

  lemma StopOneTakes(w: World, i: nat, expiry: Grant -> int)
    requires Inv(w, expiry) && i < |w.tasks| && w.tasks[i].Stopping? && w.tasks[i].left != [] && !w.tasks[i].detached
    ensures w.tasks[i].left[0] < |w.ops|
    ensures var w', o := Next(Next(w, StopOne(i), expiry), ReleaseOne(i), expiry), w.tasks[i].left[0];
            && |w'.tasks| == |w.tasks| && |w'.ops| == |w.ops|
            && w'.tasks[i] == Stopping(w.tasks[i].left[1..], false)
            && w'.ops[o].transports == {} && w'.ops[o].refs == w.ops[o].refs - 1
  {
    assert TaskOk(w, w.tasks[i]);
    hide Inv;
    hide Unpoint;
  }

  // ------------------------------------------------------------------ an admission among everything else

  /** The step detaches the operation: a bump, an expiry seen by its timer or by an admission, or the stop pass. */
  ghost predicate Detaches(w: World, step: Step, o: nat, expiry: Grant -> int) {
    match step
    case Bump(i) => i < |w.tasks| && w.tasks[i].Revocation? && w.tasks[i].holds && w.tasks[i].stored && w.tasks[i].op == o
    case Recheck(i) =>
      && i < |w.tasks| && w.tasks[i].Admission? && w.tasks[i].stage.Queried? && w.tasks[i].op == o
      && !w.closed && w.clock >= expiry(w.tasks[i].grant)
    case Expire(i) =>
      && i < |w.tasks| && w.tasks[i].Firing? && w.tasks[i].op == o && o < |w.ops|
      && w.ops[o].timer.Some? && w.ops[o].timer.value.entry == w.tasks[i].entry && w.tasks[i].now >= w.ops[o].timer.value.expiresAt
    case StopOne(i) =>
      i < |w.tasks| && w.tasks[i].Stopping? && w.tasks[i].left != [] && !w.tasks[i].detached && w.tasks[i].left[0] == o
    case _ => false
  }

  lemma AcquireEpochs(w: World, g: Grant)
    ensures |Acquire(w, g).ops| >= |w.ops|
    ensures forall o :: 0 <= o < |w.ops| ==> Acquire(w, g).ops[o].epoch == w.ops[o].epoch && Acquire(w, g).ops[o].grant == w.ops[o].grant
  {
  }

  lemma ReleaseEpochs()
    ensures forall w: World, q: nat :: q < |w.ops| ==> |Release(w, q).ops| == |w.ops|
    ensures forall w: World, q: nat, o :: q < |w.ops| && 0 <= o < |w.ops| ==>
              Release(w, q).ops[o].epoch == w.ops[o].epoch && Release(w, q).ops[o].grant == w.ops[o].grant
  {
  }

  lemma DetachEpochs(w: World, q: nat)
    requires q < |w.ops|
    ensures |Detach(w, q).ops| == |w.ops|
    ensures forall o :: 0 <= o < |w.ops| ==>
              Detach(w, q).ops[o].epoch == w.ops[o].epoch + (if o == q then 1 else 0) && Detach(w, q).ops[o].grant == w.ops[o].grant
  {
  }

  ghost predicate Moved(w: World, w': World, o: nat, detached: bool)
    requires o < |w.ops|
  {
    o < |w'.ops| && w'.ops[o].grant == w.ops[o].grant && w'.ops[o].epoch == w.ops[o].epoch + if detached then 1 else 0
  }

  lemma MovedByRecheck(w: World, i: nat, o: nat, expiry: Grant -> int)
    requires o < |w.ops|
    ensures Moved(w, Next(w, Recheck(i), expiry), o, Detaches(w, Recheck(i), o, expiry))
  {
    if i < |w.tasks| && w.tasks[i].Admission? && w.tasks[i].op < |w.ops| { DetachEpochs(w, w.tasks[i].op); }
    hide Detach;
  }

  lemma MovedByTimer(w: World, i: nat, o: nat, expiry: Grant -> int)
    requires o < |w.ops|
    ensures Moved(w, Next(w, Expire(i), expiry), o, Detaches(w, Expire(i), o, expiry))
  {
    if i < |w.tasks| && w.tasks[i].Firing? && w.tasks[i].op < |w.ops| { DetachEpochs(w, w.tasks[i].op); }
    hide Detach;
  }

  lemma MovedByEnd(w: World, i: nat, o: nat, expiry: Grant -> int)
    requires o < |w.ops|
    ensures Moved(w, Next(w, Bump(i), expiry), o, Detaches(w, Bump(i), o, expiry))
    ensures Moved(w, Next(w, StopOne(i), expiry), o, Detaches(w, StopOne(i), o, expiry))
  {
    if i < |w.tasks| {
      if w.tasks[i].Revocation? && w.tasks[i].op < |w.ops| { DetachEpochs(w, w.tasks[i].op); }
      if w.tasks[i].Stopping? && w.tasks[i].left != [] && w.tasks[i].left[0] < |w.ops| { DetachEpochs(w, w.tasks[i].left[0]); }
    }
    hide Detach;
  }

  lemma MovedOtherwise(w: World, step: Step, o: nat, expiry: Grant -> int)
    requires o < |w.ops| && !(step.Recheck? || step.StopOne? || step.Expire? || step.Bump?)
    ensures Moved(w, Next(w, step, expiry), o, false)
  {
    hide Acquire;
    hide Release;
    hide Prune;
    hide Enumerates;
    match step
    case BeginAdmit(g) => AcquireEpochs(w, g);
    case BeginRevoke(g) => AcquireEpochs(w, g);
    case EndAdmit(i) => ReleaseEpochs();
    case EndRevoke(i) => ReleaseEpochs();
    case ReleaseOne(i) => ReleaseEpochs();
    case PruneOne(_) => PruneLeaves();
    case _ =>
  }

  /** An operation's epoch counts its detachments, and its grant never changes. */
  lemma EpochMoves(w: World, step: Step, o: nat, expiry: Grant -> int)
    requires o < |w.ops|
    ensures Moved(w, Next(w, step, expiry), o, Detaches(w, step, o, expiry))
  {
    if step.Recheck? || step.StopOne? || step.Expire? || step.Bump? {
      hide Next;
      match step
      case Recheck(i) => MovedByRecheck(w, i, o, expiry);
      case Expire(i) => MovedByTimer(w, i, o, expiry);
      case _ => MovedByEnd(w, step.i, o, expiry);
    } else {
      hide Next;
      MovedOtherwise(w, step, o, expiry);
    }
  }

  /** How often a run detaches the operation. */
  ghost function Detachments(w: World, steps: seq<Step>, o: nat, expiry: Grant -> int): nat
    decreases |steps|
  {
    if steps == [] then 0
    else (if Detaches(w, steps[0], o, expiry) then 1 else 0) + Detachments(Next(w, steps[0], expiry), steps[1..], o, expiry)
  }

  lemma {:induction false} EpochCounts(w: World, steps: seq<Step>, o: nat, expiry: Grant -> int)
    requires o < |w.ops|
    ensures o < |Run(w, steps, expiry).ops| && Run(w, steps, expiry).ops[o].grant == w.ops[o].grant
    ensures Run(w, steps, expiry).ops[o].epoch == w.ops[o].epoch + Detachments(w, steps, o, expiry)
    decreases |steps|
  {
    hide Next;
    hide Detaches;
    if steps != [] {
      EpochMoves(w, steps[0], o, expiry);
      EpochCounts(Next(w, steps[0], expiry), steps[1..], o, expiry);
    }
  }

  /** The step is a section of procedure i itself. */
  predicate OwnStep(step: Step, i: nat) {
    match step
    case ReadEpoch(j) => j == i
    case QueryStore(j, _) => j == i
    case Recheck(j) => j == i
    case EndAdmit(j) => j == i
    case RevokeStored(j) => j == i
    case Bump(j) => j == i
    case EndRevoke(j) => j == i
    case Remove(j) => j == i
    case Expire(j) => j == i
    case StopOne(j) => j == i
    case ReleaseOne(j) => j == i
    case _ => false
  }

  predicate Others(steps: seq<Step>, i: nat) {
    forall k :: 0 <= k < |steps| ==> !OwnStep(steps[k], i)
  }

  lemma TaskRests(w: World, step: Step, i: nat, expiry: Grant -> int)
    requires i < |w.tasks| && !OwnStep(step, i)
    ensures i < |Next(w, step, expiry).tasks| && Next(w, step, expiry).tasks[i] == w.tasks[i]
  {
    hide Unpoint;
    hide Removed;
    hide Enumerates;
    hide HoldAll;
  }

  lemma {:induction false} TaskRestsThrough(w: World, steps: seq<Step>, i: nat, expiry: Grant -> int)
    requires i < |w.tasks| && Others(steps, i)
    ensures i < |Run(w, steps, expiry).tasks| && Run(w, steps, expiry).tasks[i] == w.tasks[i]
    decreases |steps|
  {
    hide Next;
    hide OwnStep;
    if steps != [] {
      TaskRests(w, steps[0], i, expiry);
      TaskRestsThrough(Next(w, steps[0], expiry), steps[1..], i, expiry);
    }
  }

  /** Asking the store changes the procedure that asks, and nothing else. */
  lemma QueryRests(w: World, i: nat, known: bool, expiry: Grant -> int)
    requires i < |w.tasks| && w.tasks[i].Admission? && w.tasks[i].stage.EpochRead?
    ensures var w', t := Next(w, QueryStore(i, known), expiry), w.tasks[i];
            && |w'.tasks| == |w.tasks| && w'.ops == w.ops
            && w'.tasks[i] == t.(stage := Queried(t.stage.epoch, known && w.clock < expiry(t.grant) && t.grant !in w.revoked))
  {
  }

  /** From an epoch read to the decision, whatever else happens between. */
  lemma DecidedThrough(w: World, i: nat, m2: seq<Step>, m3: seq<Step>, known: bool, expiry: Grant -> int)
    returns (wq: World, wd: World)
    requires Inv(w, expiry) && i < |w.tasks| && w.tasks[i].Admission? && w.tasks[i].op < |w.ops|
    requires w.tasks[i].stage == EpochRead(w.ops[w.tasks[i].op].epoch) && Others(m2, i) && Others(m3, i)
    ensures wq == Run(w, m2, expiry) && wd == Run(Next(wq, QueryStore(i, known), expiry), m3, expiry) && Inv(wd, expiry)
    ensures var o, g := w.tasks[i].op, w.tasks[i].grant;
            && i < |wd.tasks| && wd.tasks[i].Admission? && wd.tasks[i].op == o && wd.tasks[i].grant == g && o < |wd.ops|
            && wd.tasks[i].stage == Queried(w.ops[o].epoch, known && wq.clock < expiry(g) && g !in wq.revoked)
            && (wd.ops[o].epoch == w.ops[o].epoch <==>
                  Detachments(w, m2, o, expiry) == 0 && Detachments(Next(wq, QueryStore(i, known), expiry), m3, o, expiry) == 0)
  {
    hide Inv;
    hide Next;
    hide Run;
    hide Others;
    hide Detachments;
    var o := w.tasks[i].op;
    wq := Run(w, m2, expiry);
    RunKeeps(w, m2, expiry);
    TaskRestsThrough(w, m2, i, expiry);
    EpochCounts(w, m2, o, expiry);
    var w3 := Next(wq, QueryStore(i, known), expiry);
    QueryRests(wq, i, known, expiry);
    NextKeeps(wq, QueryStore(i, known), expiry);
    wd := Run(w3, m3, expiry);
    RunKeeps(w3, m3, expiry);
    TaskRestsThrough(w3, m3, i, expiry);
    EpochCounts(w3, m3, o, expiry);
  }

  /**
   In every interleaving: an admission that read its operation's epoch is admitted exactly when
   the store, at the time it is asked, consents to the grant, the server is open and the grant
   unexpired at the decision, and nothing detached the operation between.
   */
  lemma AdmittedIff(w: World, i: nat, m2: seq<Step>, m3: seq<Step>, known: bool, expiry: Grant -> int)
    requires Inv(w, expiry) && i < |w.tasks| && w.tasks[i].Admission? && w.tasks[i].op < |w.ops|
    requires w.tasks[i].stage == EpochRead(w.ops[w.tasks[i].op].epoch) && Others(m2, i) && Others(m3, i)
    ensures var g, o, wq := w.tasks[i].grant, w.tasks[i].op, Run(w, m2, expiry);
            var w3 := Next(wq, QueryStore(i, known), expiry);
            var wd := Run(w3, m3, expiry);
            var w' := Next(wd, Recheck(i), expiry);
            && i < |w'.tasks| && w'.tasks[i].Admission?
            && (w'.tasks[i].stage == Admitted <==>
                  && known && wq.clock < expiry(g) && g !in wq.revoked
                  && !wd.closed && wd.clock < expiry(g)
                  && Detachments(w, m2, o, expiry) == 0 && Detachments(w3, m3, o, expiry) == 0)
            && (w'.tasks[i].stage == Admitted ==> Tracks(w', i, o, expiry))
  {
    hide Inv;
    hide Next;
    hide Run;
    hide Others;
    hide Detachments;
    hide Tracks;
    var wq, wd := DecidedThrough(w, i, m2, m3, known, expiry);
    RecheckDecides(wd, i, expiry);
  }
}
