/** Every critical section of grant admission, revocation, expiry and shutdown keeps the invariant. */
module GrantProofs {
  import opened Grants

  // ------------------------------------------------------------------ time, flags, new procedures

  lemma TickKeeps(w: World, elapsed: nat, expiry: Grant -> int)
    requires Inv(w, expiry)
    ensures Inv(w.(clock := w.clock + elapsed), expiry)
  {
    var w' := w.(clock := w.clock + elapsed);
    forall i | 0 <= i < |w'.tasks| ensures TaskOk(w', w'.tasks[i]) { assert TaskOk(w, w.tasks[i]); }
    hide TaskOk;
    assert Tracked(w') by { SameTracked(w, w'); }
    forall g | g in w'.ended ensures EndedOk(w', g, expiry) {
      assert EndedOk(w, g, expiry);
      LaterEnded(w, w', g, expiry);
    }
  }

  lemma SameTracked(w: World, w': World)
    requires Tracked(w) && w'.ops == w.ops && w.tasks <= w'.tasks
    requires forall t :: t in w'.pointer ==> t in w.pointer && w'.pointer[t] == w.pointer[t]
    ensures Tracked(w')
  {
    forall o: nat, t: nat | o < |w'.ops| && t in w'.ops[o].transports ensures AdmittedTo(w', t, o) {
      assert AdmittedTo(w, t, o);
    }
  }

  /** Time passing, grants being revoked and procedures starting keep an ended grant ended. */
  lemma LaterEnded(w: World, w': World, g: Grant, expiry: Grant -> int)
    requires TasksOk(w) && TasksOk(w') && EndedOk(w, g, expiry)
    requires w'.ops == w.ops && w.clock <= w'.clock && w.revoked <= w'.revoked
    requires w.tasks <= w'.tasks
    requires forall i :: |w.tasks| <= i < |w'.tasks| && w'.tasks[i].Admission? ==> w'.tasks[i].stage.Acquired?
    ensures EndedOk(w', g, expiry)
  {
    forall j | 0 <= j < |w'.tasks| && w'.tasks[j].Admission? && w'.tasks[j].grant == g
      ensures TaskOk(w', w'.tasks[j]) && Outdated(w', w'.tasks[j], expiry)
    {
      assert TaskOk(w', w'.tasks[j]);
      if j < |w.tasks| { assert w'.tasks[j] == w.tasks[j] && TaskOk(w, w.tasks[j]); }
    }
  }

  /** A procedure that starts without taking a reference. */
  lemma TaskStarts(w: World, t: Task, w': World, expiry: Grant -> int)
    requires Inv(w, expiry) && (t.Untracking? || t.Firing?) && TaskOk(w, t)
    requires w' == w.(tasks := w.tasks + [t], pointer := w'.pointer)
    requires forall k :: k in w'.pointer ==> k in w.pointer && w'.pointer[k] == w.pointer[k]
    ensures Inv(w', expiry)
  {
    hide Holders;
    forall o | 0 <= o < |w'.ops| ensures w'.ops[o].refs == Holders(w'.tasks, o) { HoldersSnoc(w.tasks, t, o); }
    forall i | 0 <= i < |w'.tasks| ensures TaskOk(w', w'.tasks[i]) {
      if i < |w.tasks| { assert TaskOk(w, w.tasks[i]); SameTask(w, w', w.tasks[i]); } else { SameTask(w, w', t); }
    }
    hide TaskOk;
    SameTracked(w, w');
    forall g | g in w'.ended ensures EndedOk(w', g, expiry) {
      assert EndedOk(w, g, expiry);
      LaterEnded(w, w', g, expiry);
    }
  }

  lemma RevokedGrows(w: World, g: Grant, expiry: Grant -> int)
    requires Inv(w, expiry)
    ensures Inv(w.(revoked := w.revoked + {g}), expiry)
  {
    var w' := w.(revoked := w.revoked + {g});
    forall i | 0 <= i < |w'.tasks| ensures TaskOk(w', w'.tasks[i]) { assert TaskOk(w, w.tasks[i]); }
    hide TaskOk;
    SameTracked(w, w');
    forall g | g in w'.ended ensures EndedOk(w', g, expiry) {
      assert EndedOk(w, g, expiry);
      LaterEnded(w, w', g, expiry);
    }
  }

  lemma CloseKeeps(w: World, expiry: Grant -> int)
    requires Inv(w, expiry)
    ensures Inv(w.(closed := true), expiry)
  {
    var w' := w.(closed := true);
    forall i | 0 <= i < |w'.tasks| ensures TaskOk(w', w'.tasks[i]) { assert TaskOk(w, w.tasks[i]); }
    hide TaskOk;
    SameTracked(w, w');
    forall g | g in w'.ended ensures EndedOk(w', g, expiry) {
      assert EndedOk(w, g, expiry);
      LaterEnded(w, w', g, expiry);
    }
  }

  // ------------------------------------------------------------------ ending a grant

  /** While a procedure holds a grant's operation, no other operation tracks for that grant. */
  lemma SoleOp(w: World, i: nat, o: nat, q: nat)
    requires Counted(w) && Unique(w) && i < |w.tasks| && o < |w.ops| && q < |w.ops|
    requires Holds(w.tasks[i], o) > 0 || Busy(w.ops[o])
    requires w.ops[q].grant == w.ops[o].grant && (w.ops[q].transports != {} || w.ops[q].refs != 0)
    ensures q == o
  {
    if Holds(w.tasks[i], o) > 0 { HeldIsMapped(w, i, o); }
  }

  /** Detaching a revoked or expired grant's operation ends the grant for good. */
  lemma EndsGrant(w: World, i: nat, o: nat, expiry: Grant -> int)
    requires Inv(w, expiry) && i < |w.tasks| && o < |w.ops| && (Holds(w.tasks[i], o) > 0 || Busy(w.ops[o]))
    requires w.ops[o].grant in w.revoked || w.clock >= expiry(w.ops[o].grant)
    ensures var w' := Detach(w, o); TasksOk(w') && EndedOk(w', w.ops[o].grant, expiry)
  {
    DetachTasks(w, o);
    var w', g := Detach(w, o), w.ops[o].grant;
    forall q | 0 <= q < |w'.ops| && w'.ops[q].grant == g ensures w'.ops[q].transports == {} {
      if q != o && w.ops[q].transports != {} { SoleOp(w, i, o, q); }
    }
    forall j | 0 <= j < |w'.tasks| && w'.tasks[j].Admission? && w'.tasks[j].grant == g
      ensures TaskOk(w', w'.tasks[j]) && Outdated(w', w'.tasks[j], expiry)
    {
      assert TaskOk(w', w'.tasks[j]) && TaskOk(w, w.tasks[j]);
      if w.tasks[j].stage.Queried? {
        HoldersAtLeast(w.tasks, j, w.tasks[j].op);
        SoleOp(w, i, o, w.tasks[j].op);
      }
    }
  }

  lemma DetachAndEnd(w: World, i: nat, o: nat, expiry: Grant -> int)
    requires Inv(w, expiry) && i < |w.tasks| && o < |w.ops| && (Holds(w.tasks[i], o) > 0 || Busy(w.ops[o]))
    requires w.ops[o].grant in w.revoked || w.clock >= expiry(w.ops[o].grant)
    ensures Inv(Detach(w, o).(ended := w.ended + {w.ops[o].grant}), expiry)
  {
    DetachKeeps(w, o, expiry);
    EndsGrant(w, i, o, expiry);
    var w1 := Detach(w, o);
    MarkEnded(w1, w.ops[o].grant, expiry);
  }

  lemma MarkEnded(w: World, g: Grant, expiry: Grant -> int)
    requires Inv(w, expiry) && EndedOk(w, g, expiry)
    ensures Inv(w.(ended := w.ended + {g}), expiry)
  {
    var w' := w.(ended := w.ended + {g});
    forall i | 0 <= i < |w'.tasks| ensures TaskOk(w', w'.tasks[i]) {
      assert TaskOk(w, w.tasks[i]);
      SameTask(w, w', w.tasks[i]);
    }
    hide TaskOk;
    SameTracked(w, w');
    forall h | h in w'.ended ensures EndedOk(w', h, expiry) {
      assert EndedOk(w, h, expiry);
      LaterEnded(w, w', h, expiry);
    }
  }

  // ------------------------------------------------------------------ admission

  lemma ReadEpochKeeps(w: World, i: nat, expiry: Grant -> int)
    requires Inv(w, expiry)
    ensures Inv(Next(w, ReadEpoch(i), expiry), expiry)
  {
    if i < |w.tasks| && w.tasks[i].Admission? && w.tasks[i].stage.Acquired? && w.tasks[i].op < |w.ops| {
      var t := w.tasks[i];
      assert TaskOk(w, t);
      TaskMoves(w, i, Admission(t.grant, t.op, EpochRead(w.ops[t.op].epoch), t.holds), expiry);
    }
  }

  lemma QueryStoreKeeps(w: World, i: nat, known: bool, expiry: Grant -> int)
    requires Inv(w, expiry)
    ensures Inv(Next(w, QueryStore(i, known), expiry), expiry)
  {
    if i < |w.tasks| && w.tasks[i].Admission? && w.tasks[i].stage.EpochRead? {
      var t := w.tasks[i];
      assert TaskOk(w, t);
      assert t.grant in w.ended ==> EndedOk(w, t.grant, expiry);
      var active := known && w.clock < expiry(t.grant) && t.grant !in w.revoked;
      TaskMoves(w, i, Admission(t.grant, t.op, Queried(t.stage.epoch, active), t.holds), expiry);
    }
  }

  /** An admission that gave up. */
  lemma RefuseKeeps(w: World, i: nat, reason: Reason, expiry: Grant -> int)
    requires Inv(w, expiry) && i < |w.tasks| && w.tasks[i].Admission? && w.tasks[i].stage.Queried?
    ensures Inv(WithTask(w, i, w.tasks[i].(stage := Refused(reason))), expiry)
  {
    var t := w.tasks[i];
    assert TaskOk(w, t);
    TaskMoves(w, i, t.(stage := Refused(reason)), expiry);
  }

  /** The operation with one more transport. */
  function Tracking(w: World, i: nat, o: nat, expiry: Grant -> int): World
    requires i < |w.tasks| && w.tasks[i].Admission? && o < |w.ops|
  {
    var op := w.ops[o];
    var timer := if op.timer.Some? then op.timer else Some(Timer(w.entries, expiry(w.tasks[i].grant)));
    WithTask(WithOp(w, o, op.(transports := op.transports + {i}, timer := timer)), i, w.tasks[i].(stage := Admitted))
    .(pointer := w.pointer[i := o], entries := if op.timer.Some? then w.entries else w.entries + 1)
  }

  lemma TrackingTasks(w: World, i: nat, o: nat, expiry: Grant -> int)
    requires TasksOk(w) && !w.closed && i < |w.tasks| && w.tasks[i].Admission? && o == w.tasks[i].op < |w.ops|
    requires w.tasks[i].stage.Queried?
    ensures TasksOk(Tracking(w, i, o, expiry))
  {
    var w' := Tracking(w, i, o, expiry);
    forall j | 0 <= j < |w'.tasks| ensures TaskOk(w', w'.tasks[j]) { assert TaskOk(w, w.tasks[j]); }
  }

  lemma TrackingTracked(w: World, i: nat, o: nat, expiry: Grant -> int)
    requires Tracked(w) && i < |w.tasks| && w.tasks[i].Admission? && o == w.tasks[i].op < |w.ops|
    ensures Tracked(Tracking(w, i, o, expiry))
  {
    var w' := Tracking(w, i, o, expiry);
    forall q: nat, t: nat | q < |w'.ops| && t in w'.ops[q].transports ensures AdmittedTo(w', t, q) {
      if t in w.ops[q].transports { assert AdmittedTo(w, t, q); }
    }
  }

  lemma TrackingEnded(w: World, i: nat, o: nat, g: Grant, expiry: Grant -> int)
    requires TasksOk(w) && i < |w.tasks| && w.tasks[i].Admission? && o == w.tasks[i].op < |w.ops|
    requires TasksOk(Tracking(w, i, o, expiry)) && EndedOk(w, g, expiry) && w.tasks[i].grant != g
    ensures EndedOk(Tracking(w, i, o, expiry), g, expiry)
  {
    var w' := Tracking(w, i, o, expiry);
    assert TaskOk(w, w.tasks[i]);
    forall j | 0 <= j < |w'.tasks| && w'.tasks[j].Admission? && w'.tasks[j].grant == g
      ensures TaskOk(w', w'.tasks[j]) && Outdated(w', w'.tasks[j], expiry)
    {
      assert TaskOk(w', w'.tasks[j]) && TaskOk(w, w.tasks[j]);
    }
  }

  lemma TrackingTimed(w: World, i: nat, o: nat, expiry: Grant -> int)
    requires Timed(w, expiry) && i < |w.tasks| && w.tasks[i].Admission? && o < |w.ops| && w.ops[o].grant == w.tasks[i].grant
    ensures Timed(Tracking(w, i, o, expiry), expiry)
  {
    var w' := Tracking(w, i, o, expiry);
    assert i in w'.ops[o].transports;
    assert forall q :: 0 <= q < |w.ops| && q != o ==> w'.ops[q] == w.ops[q];
  }

  lemma TrackingCounted(w: World, i: nat, o: nat, expiry: Grant -> int)
    requires Counted(w) && Unique(w) && TasksOk(w) && i < |w.tasks| && w.tasks[i].Admission? && o == w.tasks[i].op < |w.ops|
    requires w.tasks[i].stage.Queried?
    ensures Counted(Tracking(w, i, o, expiry)) && Unique(Tracking(w, i, o, expiry))
  {
    var w' := Tracking(w, i, o, expiry);
    assert TaskOk(w, w.tasks[i]);
    HeldIsMapped(w, i, o);
    forall q | 0 <= q < |w'.ops| ensures w'.ops[q].refs == Holders(w'.tasks, q) {
      HoldersUpdate(w.tasks, i, w'.tasks[i], q);
    }
  }

  /** A transport is tracked only for a grant that has not ended. */
  lemma TrackingKeeps(w: World, i: nat, o: nat, expiry: Grant -> int)
    requires Inv(w, expiry) && !w.closed && i < |w.tasks| && w.tasks[i].Admission? && o == w.tasks[i].op < |w.ops|
    requires w.tasks[i].stage.Queried? && w.clock < expiry(w.tasks[i].grant)
    requires w.tasks[i].stage.active && w.tasks[i].stage.epoch == w.ops[o].epoch
    ensures Inv(Tracking(w, i, o, expiry), expiry)
  {
    assert TaskOk(w, w.tasks[i]);
    assert w.tasks[i].grant !in w.ended by {
      assert w.tasks[i].grant in w.ended ==> EndedOk(w, w.tasks[i].grant, expiry);
    }
    TrackingTasks(w, i, o, expiry);
    TrackingTracked(w, i, o, expiry);
    TrackingTimed(w, i, o, expiry);
    TrackingCounted(w, i, o, expiry);
    hide TaskOk;
    forall g | g in w.ended ensures EndedOk(Tracking(w, i, o, expiry), g, expiry) {
      assert EndedOk(w, g, expiry);
      TrackingEnded(w, i, o, g, expiry);
    }
  }

  lemma RecheckKeeps(w: World, i: nat, expiry: Grant -> int)
    requires Inv(w, expiry) && i < |w.tasks| && w.tasks[i].Admission? && w.tasks[i].stage.Queried? && w.tasks[i].op < |w.ops|
    ensures Inv(DecideAdmission(w, i, expiry), expiry)
  {
    var t := w.tasks[i];
    assert TaskOk(w, t);
    if w.closed {
      RefuseKeeps(w, i, Shutdown, expiry);
    } else if w.clock >= expiry(t.grant) {
      hide Inv;
      assert Holds(t, t.op) > 0;
      assert Inv(w, expiry);
      DetachAndEnd(w, i, t.op, expiry);
      var w1 := Detach(w, t.op).(ended := w.ended + {t.grant});
      RefuseKeeps(w1, i, Expired, expiry);
    } else if w.ops[t.op].epoch != t.stage.epoch || !t.stage.active {
      RefuseKeeps(w, i, Revoked, expiry);
    } else {
      TrackingKeeps(w, i, t.op, expiry);
      assert DecideAdmission(w, i, expiry) == Tracking(w, i, t.op, expiry);
    }
  }

  // ------------------------------------------------------------------ taking and releasing references

  lemma {:induction false} NoHolders(tasks: seq<Task>, o: nat)
    requires forall i :: 0 <= i < |tasks| ==> Holds(tasks[i], o) == 0
    ensures Holders(tasks, o) == 0
  {
    hide Holds;
    if tasks != [] { NoHolders(tasks[..|tasks| - 1], o); }
  }

  lemma NobodyHolds(w: World, o: nat)
    requires TasksOk(w) && o >= |w.ops|
    ensures Holders(w.tasks, o) == 0
  {
    forall i | 0 <= i < |w.tasks| ensures Holds(w.tasks[i], o) == 0 { assert TaskOk(w, w.tasks[i]); }
    NoHolders(w.tasks, o);
  }

  /** The operations after a change that leaves transports, timers, epochs and grants as they were. */
  ghost predicate SameWork(a: seq<Op>, b: seq<Op>) {
    && |a| <= |b|
    && (forall o :: 0 <= o < |a| ==>
          b[o].grant == a[o].grant && b[o].epoch == a[o].epoch && b[o].transports == a[o].transports && b[o].timer == a[o].timer)
    && (forall o :: |a| <= o < |b| ==> b[o].transports == {} && b[o].timer.None?)
  }

  /** References and the table change; everything else about grants stays. */
  lemma RefsMove(w: World, w': World, expiry: Grant -> int)
    requires Inv(w, expiry) && SameWork(w.ops, w'.ops) && w.tasks <= w'.tasks && |w'.tasks| <= |w.tasks| + 1
    requires w'.clock == w.clock && w'.closed == w.closed && w'.revoked == w.revoked && w'.entries == w.entries
    requires w'.pointer == w.pointer && w'.ended == w.ended
    requires |w'.tasks| > |w.tasks| ==> TaskOk(w', w'.tasks[|w.tasks|])
                                        && (w'.tasks[|w.tasks|].Admission? ==> w'.tasks[|w.tasks|].stage.Acquired?)
    requires Counted(w') && Unique(w')
    ensures Inv(w', expiry)
  {
    forall i | 0 <= i < |w'.tasks| ensures TaskOk(w', w'.tasks[i]) {
      if i < |w.tasks| { assert w'.tasks[i] == w.tasks[i]; WorkTask(w, w', w.tasks[i]); }
    }
    hide TaskOk;
    forall o: nat, t: nat | o < |w'.ops| && t in w'.ops[o].transports ensures AdmittedTo(w', t, o) {
      assert AdmittedTo(w, t, o);
    }
    WorkTimed(w, w', expiry);
    forall g | g in w'.ended ensures EndedOk(w', g, expiry) {
      assert EndedOk(w, g, expiry);
      WorkEnded(w, w', g, expiry);
    }
  }

  lemma WorkTask(w: World, w': World, t: Task)
    requires TasksOk(w) && t in w.tasks && SameWork(w.ops, w'.ops)
    requires w'.clock == w.clock && w'.closed == w.closed && w'.revoked == w.revoked
    ensures TaskOk(w', t)
  {
    var i :| 0 <= i < |w.tasks| && w.tasks[i] == t;
    assert TaskOk(w, w.tasks[i]);
  }

  lemma WorkTimed(w: World, w': World, expiry: Grant -> int)
    requires Timed(w, expiry) && SameWork(w.ops, w'.ops) && w'.entries == w.entries
    ensures Timed(w', expiry)
  {
  }

  lemma WorkEnded(w: World, w': World, g: Grant, expiry: Grant -> int)
    requires TasksOk(w) && TasksOk(w') && EndedOk(w, g, expiry) && SameWork(w.ops, w'.ops)
    requires w'.clock == w.clock && w'.revoked == w.revoked && w.tasks <= w'.tasks
    requires forall i :: |w.tasks| <= i < |w'.tasks| && w'.tasks[i].Admission? ==> w'.tasks[i].stage.Acquired?
    ensures EndedOk(w', g, expiry)
  {
    forall j | 0 <= j < |w'.tasks| && w'.tasks[j].Admission? && w'.tasks[j].grant == g
      ensures TaskOk(w', w'.tasks[j]) && Outdated(w', w'.tasks[j], expiry)
    {
      assert TaskOk(w', w'.tasks[j]);
      if j < |w.tasks| { assert w'.tasks[j] == w.tasks[j] && TaskOk(w, w.tasks[j]); }
    }
  }

  ghost predicate Starts(w: World, g: Grant, t: Task) {
    t == Admission(g, Place(w, g), Acquired, true) || t == Revocation(g, Place(w, g), false, true)
  }

  lemma AcquireCounted(w: World, g: Grant, t: Task)
    requires Counted(w) && Unique(w) && TasksOk(w) && Starts(w, g, t)
    ensures Counted(Acquire(w, g).(tasks := w.tasks + [t]))
  {
    var w' := Acquire(w, g).(tasks := w.tasks + [t]);
    NobodyHolds(w, |w.ops|);
    hide Holders;
    hide TasksOk;
    forall o | 0 <= o < |w'.ops| ensures w'.ops[o].refs == Holders(w'.tasks, o) { HoldersSnoc(w.tasks, t, o); }
  }

  lemma AcquireUnique(w: World, g: Grant)
    requires Unique(w)
    ensures var w' := Acquire(w, g);
            Unique(w') && SameWork(w.ops, w'.ops) && Place(w, g) < |w'.ops| && w'.ops[Place(w, g)].grant == g
  {
    hide Busy;
    if g !in w.mapped {
      var op := Op(g, 0, {}, None, 1);
      forall o | 0 <= o < |w.ops| && Busy(w.ops[o]) ensures w.ops[o].grant != g {}
      assert Acquire(w, g).ops == w.ops + [op];
    }
  }

  /** What a procedure that takes a reference does to the table and the counts. */
  lemma AcquireParts(w: World, g: Grant, t: Task, expiry: Grant -> int)
    requires Inv(w, expiry) && Starts(w, g, t)
    ensures var w' := Acquire(w, g).(tasks := w.tasks + [t]);
            Counted(w') && Unique(w') && SameWork(w.ops, w'.ops) && TaskOk(w', t)
  {
    AcquireCounted(w, g, t);
    AcquireUnique(w, g);
    hide Counted;
    hide Unique;
    hide SameWork;
    TableOnly(Acquire(w, g), Acquire(w, g).(tasks := w.tasks + [t]));
  }

  /** A procedure starts by taking a reference. */
  lemma AcquireKeeps(w: World, g: Grant, t: Task, expiry: Grant -> int)
    requires Inv(w, expiry) && Starts(w, g, t)
    ensures Inv(Acquire(w, g).(tasks := w.tasks + [t]), expiry)
  {
    hide Inv;
    hide Unique;
    hide Counted;
    hide TaskOk;
    hide SameWork;
    AcquireParts(w, g, t, expiry);
    RefsMove(w, Acquire(w, g).(tasks := w.tasks + [t]), expiry);
  }

  lemma TableOnly(w: World, w': World)
    requires Unique(w) && w'.ops == w.ops && w'.mapped == w.mapped
    ensures Unique(w')
  {
  }

  lemma PruneKeeps(w: World, o: nat, expiry: Grant -> int)
    requires Inv(w, expiry) && o < |w.ops|
    ensures Inv(Prune(w, o), expiry)
  {
    var w' := Prune(w, o);
    assert Unique(w') by { hide TaskOk; hide Counted; }
    assert Counted(w');
    RefsMove(w, w', expiry);
  }

  /** A procedure gives its reference back, and the idle operation leaves the table. */
  lemma ReleaseKeeps(w: World, i: nat, t: Task, o: nat, expiry: Grant -> int)
    requires Inv(w, expiry) && i < |w.tasks| && o < |w.ops| && TaskOk(w, t)
    requires Holds(w.tasks[i], o) == 1 && Holds(t, o) == 0
    requires forall q :: q != o ==> Holds(t, q) == Holds(w.tasks[i], q)
    requires t.Admission? <==> w.tasks[i].Admission?
    requires t.Admission? ==> t == Admission(w.tasks[i].grant, w.tasks[i].op, w.tasks[i].stage, false) && !t.stage.Queried?
    ensures Inv(Release(WithTask(w, i, t), o), expiry)
  {
    var w2 := WithTask(WithOp(w, o, w.ops[o].(refs := w.ops[o].refs - 1)), i, t);
    assert Inv(w2, expiry) by {
      ReleasedCounted(w, i, t, o);
      ReleasedUnique(w, i, t, o);
      ReleasedTasks(w, i, t, w2);
      ReleasedTracked(w, i, t, w2);
      WorkTimed(w, w2, expiry);
      hide Counted;
      hide Unique;
      hide Tracked;
      hide Timed;
      hide TaskOk;
      forall g | g in w2.ended ensures EndedOk(w2, g, expiry) {
        assert EndedOk(w, g, expiry);
        ReleasedEnded(w, i, t, w2, g, expiry);
      }
    }
    hide Inv;
    PruneKeeps(w2, o, expiry);
    assert WithOp(WithTask(w, i, t), o, w.ops[o].(refs := w.ops[o].refs - 1)) == w2;
  }

  lemma ReleasedUnique(w: World, i: nat, t: Task, o: nat)
    requires Counted(w) && Unique(w) && i < |w.tasks| && o < |w.ops| && Holds(w.tasks[i], o) == 1
    ensures Unique(WithTask(WithOp(w, o, w.ops[o].(refs := w.ops[o].refs - 1)), i, t))
  {
    HeldIsMapped(w, i, o);
    hide Counted;
  }

  lemma ReleasedTracked(w: World, i: nat, t: Task, w2: World)
    requires Tracked(w) && i < |w.tasks| && SameWork(w.ops, w2.ops) && |w2.ops| == |w.ops|
    requires w2 == w.(ops := w2.ops, tasks := w.tasks[i := t]) && (t.Admission? <==> w.tasks[i].Admission?)
    requires t.Admission? ==> t == Admission(w.tasks[i].grant, w.tasks[i].op, w.tasks[i].stage, false)
    ensures Tracked(w2)
  {
    TaskTracked(w, i, t);
    forall q: nat, k: nat | q < |w2.ops| && k in w2.ops[q].transports ensures AdmittedTo(w2, k, q) {
      assert AdmittedTo(WithTask(w, i, t), k, q);
    }
  }

  lemma ReleasedCounted(w: World, i: nat, t: Task, o: nat)
    requires Counted(w) && i < |w.tasks| && o < |w.ops|
    requires Holds(w.tasks[i], o) == 1 && Holds(t, o) == 0
    requires forall q :: q != o ==> Holds(t, q) == Holds(w.tasks[i], q)
    ensures Counted(WithTask(WithOp(w, o, w.ops[o].(refs := w.ops[o].refs - 1)), i, t))
  {
    hide Holders;
    hide Holds;
    var w2 := WithTask(WithOp(w, o, w.ops[o].(refs := w.ops[o].refs - 1)), i, t);
    forall q | 0 <= q < |w2.ops| ensures w2.ops[q].refs == Holders(w2.tasks, q) { HoldersUpdate(w.tasks, i, t, q); }
  }

  lemma ReleasedTasks(w: World, i: nat, t: Task, w2: World)
    requires TasksOk(w) && i < |w.tasks| && TaskOk(w, t) && SameWork(w.ops, w2.ops)
    requires w2 == w.(ops := w2.ops, tasks := w.tasks[i := t])
    ensures TasksOk(w2)
  {
    forall j | 0 <= j < |w2.tasks| ensures TaskOk(w2, w2.tasks[j]) {
      if j != i { assert TaskOk(w, w.tasks[j]); }
    }
  }

  lemma ReleasedEnded(w: World, i: nat, t: Task, w2: World, g: Grant, expiry: Grant -> int)
    requires TasksOk(w) && TasksOk(w2) && i < |w.tasks| && SameWork(w.ops, w2.ops) && |w2.ops| == |w.ops|
    requires w2 == w.(ops := w2.ops, tasks := w.tasks[i := t]) && (t.Admission? ==> !t.stage.Queried?)
    requires EndedOk(w, g, expiry)
    ensures EndedOk(w2, g, expiry)
  {
    forall j | 0 <= j < |w2.tasks| && w2.tasks[j].Admission? && w2.tasks[j].grant == g
      ensures TaskOk(w2, w2.tasks[j]) && Outdated(w2, w2.tasks[j], expiry)
    {
      assert TaskOk(w2, w2.tasks[j]);
      if j != i { assert w2.tasks[j] == w.tasks[j] && TaskOk(w, w.tasks[j]); }
    }
  }

  /** The same procedure without its reference. */
  lemma LetsGo(w: World, i: nat, t: Task, expiry: Grant -> int)
    requires Inv(w, expiry) && i < |w.tasks| && (w.tasks[i].Admission? || w.tasks[i].Revocation?) && w.tasks[i].holds
    requires w.tasks[i].Admission? ==>
               t == Admission(w.tasks[i].grant, w.tasks[i].op, w.tasks[i].stage, false)
               && (w.tasks[i].stage.Admitted? || w.tasks[i].stage.Refused?)
    requires w.tasks[i].Revocation? ==> t == Revocation(w.tasks[i].grant, w.tasks[i].op, w.tasks[i].stored, false)
    ensures w.tasks[i].op < |w.ops| && Inv(Release(WithTask(w, i, t), w.tasks[i].op), expiry)
  {
    assert TaskOk(w, w.tasks[i]) && TaskOk(w, t);
    assert Holds(w.tasks[i], w.tasks[i].op) == 1 && Holds(t, w.tasks[i].op) == 0;
    assert forall q :: q != w.tasks[i].op ==> Holds(t, q) == Holds(w.tasks[i], q);
    hide Inv;
    hide TaskOk;
    hide Release;
    hide Holds;
    ReleaseKeeps(w, i, t, w.tasks[i].op, expiry);
  }

  // ------------------------------------------------------------------ untracking and timers

  lemma SwapKeeps(w: World, t: nat, expiry: Grant -> int)
    requires Inv(w, expiry) && t in w.pointer
    ensures Inv(Next(w, SwapPointer(t), expiry), expiry)
  {
    assert w.pointer[t] < |w.ops|;
    TaskStarts(w, Untracking(t, w.pointer[t]), Next(w, SwapPointer(t), expiry), expiry);
  }

  lemma RemoveTasks(w: World, o: nat, transport: nat)
    requires TasksOk(w) && o < |w.ops|
    ensures TasksOk(WithOp(w, o, Removed(w.ops[o], transport)))
  {
    var w' := WithOp(w, o, Removed(w.ops[o], transport));
    forall i | 0 <= i < |w'.tasks| ensures TaskOk(w', w'.tasks[i]) { assert TaskOk(w, w.tasks[i]); }
  }

  lemma RemoveEnded(w: World, o: nat, transport: nat, g: Grant, expiry: Grant -> int)
    requires o < |w.ops| && TasksOk(w) && TasksOk(WithOp(w, o, Removed(w.ops[o], transport))) && EndedOk(w, g, expiry)
    ensures EndedOk(WithOp(w, o, Removed(w.ops[o], transport)), g, expiry)
  {
    var w' := WithOp(w, o, Removed(w.ops[o], transport));
    forall j | 0 <= j < |w'.tasks| && w'.tasks[j].Admission? && w'.tasks[j].grant == g
      ensures TaskOk(w', w'.tasks[j]) && Outdated(w', w'.tasks[j], expiry)
    {
      assert TaskOk(w', w'.tasks[j]) && TaskOk(w, w.tasks[j]);
    }
  }

  lemma RemoveTracked(w: World, o: nat, transport: nat)
    requires Tracked(w) && o < |w.ops|
    ensures Tracked(WithOp(w, o, Removed(w.ops[o], transport)))
  {
    var w' := WithOp(w, o, Removed(w.ops[o], transport));
    forall q: nat, t: nat | q < |w'.ops| && t in w'.ops[q].transports ensures AdmittedTo(w', t, q) {
      assert t in w.ops[q].transports && AdmittedTo(w, t, q);
    }
  }

  lemma RemoveKeeps(w: World, o: nat, transport: nat, expiry: Grant -> int)
    requires Inv(w, expiry) && o < |w.ops|
    ensures Inv(WithOp(w, o, Removed(w.ops[o], transport)), expiry)
  {
    hide TaskOk;
    var w' := WithOp(w, o, Removed(w.ops[o], transport));
    RemoveTasks(w, o, transport);
    RemoveTracked(w, o, transport);
    forall g | g in w'.ended ensures EndedOk(w', g, expiry) { RemoveEnded(w, o, transport, g, expiry); }
    hide EndedOk;
    hide TasksOk;
    hide Tracked;
    assert Counted(w') by { hide Unique; hide Timed; }
    assert Unique(w') by { hide Counted; hide Timed; }
    assert Timed(w', expiry) by { hide Counted; hide Unique; }
  }

  /** A timer callback detaches only the operation whose current timer it is. */
  lemma ExpireKeeps(w: World, i: nat, expiry: Grant -> int)
    requires Inv(w, expiry) && i < |w.tasks| && w.tasks[i].Firing? && w.tasks[i].op < |w.ops|
    ensures Inv(RunTimer(w, w.tasks[i], expiry), expiry)
  {
    var f := w.tasks[i];
    assert TaskOk(w, f);
    var op := w.ops[f.op];
    if op.timer.Some? && op.timer.value.entry == f.entry && f.now >= op.timer.value.expiresAt {
      assert Busy(op) && w.clock >= expiry(op.grant);
      hide Inv;
      assert Inv(w, expiry);
      DetachAndEnd(w, i, f.op, expiry);
    }
  }

  lemma BumpKeeps(w: World, i: nat, expiry: Grant -> int)
    requires Inv(w, expiry) && i < |w.tasks| && w.tasks[i].Revocation? && w.tasks[i].holds && w.tasks[i].stored
    requires w.tasks[i].op < |w.ops|
    ensures Inv(Next(w, Bump(i), expiry), expiry)
  {
    var a := w.tasks[i];
    assert TaskOk(w, a) && w.ops[a.op].grant == a.grant && a.grant in w.revoked;
    assert Holds(a, a.op) > 0;
    hide Inv;
    hide TaskOk;
    DetachAndEnd(w, i, a.op, expiry);
  }

  // ------------------------------------------------------------------ shutdown

  lemma HoldUnique(w: World, order: seq<nat>)
    requires Unique(w) && Enumerates(order, w.mapped)
    ensures Unique(w.(ops := HoldAll(w.ops, order)))
  {
    var w' := w.(ops := HoldAll(w.ops, order));
    forall o | 0 <= o < |w'.ops| && Busy(w'.ops[o])
      ensures w'.ops[o].grant in w'.mapped && w'.mapped[w'.ops[o].grant] == o
    {
      if o in order {
        var g :| g in w.mapped && w.mapped[g] == o;
      } else {
        assert Busy(w.ops[o]);
      }
    }
  }

  function Stopped(w: World, order: seq<nat>): World {
    w.(ops := HoldAll(w.ops, order), tasks := w.tasks + [Stopping(order, false)])
  }

  lemma StopCounted(w: World, order: seq<nat>)
    requires Counted(w)
    ensures Counted(Stopped(w, order))
  {
    hide Holders;
    var w' := Stopped(w, order);
    forall o | 0 <= o < |w'.ops| ensures w'.ops[o].refs == Holders(w'.tasks, o) {
      HoldersSnoc(w.tasks, Stopping(order, false), o);
    }
  }

  lemma StopTask(w: World, order: seq<nat>)
    requires Unique(w) && w.closed && Enumerates(order, w.mapped)
    ensures TaskOk(Stopped(w, order), Stopping(order, false))
  {
    forall i | 0 <= i < |order| ensures order[i] < |w.ops| { assert order[i] in order; }
    forall o | 0 <= o < |w.ops| && w.ops[o].transports != {} ensures o in order { assert Busy(w.ops[o]); }
  }

  lemma StopParts(w: World, order: seq<nat>, expiry: Grant -> int)
    requires Inv(w, expiry) && w.closed && Enumerates(order, w.mapped)
    ensures var w' := Stopped(w, order);
            Counted(w') && Unique(w') && SameWork(w.ops, w'.ops) && TaskOk(w', Stopping(order, false))
  {
    StopCounted(w, order);
    StopTask(w, order);
    HoldUnique(w, order);
    hide Counted;
    hide Unique;
    hide TaskOk;
    TableOnly(w.(ops := HoldAll(w.ops, order)), Stopped(w, order));
  }

  lemma BeginStopKeeps(w: World, order: seq<nat>, expiry: Grant -> int)
    requires Inv(w, expiry) && w.closed && Enumerates(order, w.mapped)
    ensures Inv(Next(w, BeginStop(order), expiry), expiry)
  {
    hide Inv;
    hide Counted;
    hide Unique;
    hide TaskOk;
    hide SameWork;
    hide Enumerates;
    hide HoldAll;
    StopParts(w, order, expiry);
    RefsMove(w, Stopped(w, order), expiry);
  }

  lemma StopOneKeeps(w: World, i: nat, expiry: Grant -> int)
    requires Inv(w, expiry) && i < |w.tasks| && w.tasks[i].Stopping? && w.tasks[i].left != [] && !w.tasks[i].detached
    requires w.tasks[i].left[0] < |w.ops|
    ensures Inv(Next(w, StopOne(i), expiry), expiry)
  {
    var s := w.tasks[i];
    assert TaskOk(w, s);
    var w1 := Detach(w, s.left[0]);
    var t := Stopping(s.left, true);
    assert TaskOk(w1, t);
    DetachKeeps(w, s.left[0], expiry);
    hide Inv;
    hide TaskOk;
    TaskMoves(w1, i, t, expiry);
  }

  lemma NextToStop(w: World, i: nat)
    requires TasksOk(w) && i < |w.tasks| && w.tasks[i].Stopping? && w.tasks[i].left != [] && w.tasks[i].detached
    ensures var s := w.tasks[i]; var t := Stopping(s.left[1..], false);
            && TaskOk(w, t) && Holds(s, s.left[0]) == 1 && Holds(t, s.left[0]) == 0
            && forall q :: q != s.left[0] ==> Holds(t, q) == Holds(s, q)
  {
    var s := w.tasks[i];
    assert TaskOk(w, s);
    LeftAfter(s.left);
  }

  lemma ReleaseOneKeeps(w: World, i: nat, expiry: Grant -> int)
    requires Inv(w, expiry) && i < |w.tasks| && w.tasks[i].Stopping? && w.tasks[i].left != [] && w.tasks[i].detached
    requires w.tasks[i].left[0] < |w.ops|
    ensures Inv(Next(w, ReleaseOne(i), expiry), expiry)
  {
    var s := w.tasks[i];
    assert TasksOk(w);
    hide Inv;
    hide TasksOk;
    hide TaskOk;
    hide Holds;
    hide Release;
    NextToStop(w, i);
    ReleaseKeeps(w, i, Stopping(s.left[1..], false), s.left[0], expiry);
  }

  lemma LeftAfter(left: seq<nat>)
    requires left != [] && forall i, j :: 0 <= i < j < |left| ==> left[i] != left[j]
    ensures left[0] !in left[1..]
    ensures forall o :: o in left <==> o == left[0] || o in left[1..]
  {
  }

  // ------------------------------------------------------------------ all runs

  lemma NextKeeps(w: World, step: Step, expiry: Grant -> int)
    requires Inv(w, expiry)
    ensures Inv(Next(w, step, expiry), expiry)
  {
    hide Inv;
    hide Acquire;
    hide Release;
    hide Detach;
    hide Prune;
    hide Enumerates;
    match step
    case Tick(elapsed) => TickKeeps(w, elapsed, expiry);
    case BeginAdmit(g) => AcquireKeeps(w, g, Admission(g, Place(w, g), Acquired, true), expiry);
    case ReadEpoch(i) => ReadEpochKeeps(w, i, expiry);
    case QueryStore(i, known) => QueryStoreKeeps(w, i, known, expiry);
    case Recheck(i) =>
      if i < |w.tasks| && w.tasks[i].Admission? && w.tasks[i].stage.Queried? && w.tasks[i].op < |w.ops| {
        RecheckKeeps(w, i, expiry);
      }
    case EndAdmit(i) =>
      if i < |w.tasks| && w.tasks[i].Admission? && w.tasks[i].holds && w.tasks[i].op < |w.ops|
         && (w.tasks[i].stage.Admitted? || w.tasks[i].stage.Refused?) {
        LetsGo(w, i, Admission(w.tasks[i].grant, w.tasks[i].op, w.tasks[i].stage, false), expiry);
      }
    case BeginRevoke(g) => AcquireKeeps(w, g, Revocation(g, Place(w, g), false, true), expiry);
    case RevokeStored(i) =>
      if i < |w.tasks| && w.tasks[i].Revocation? && w.tasks[i].holds { StoredKeeps(w, i, expiry); }
    case Bump(i) =>
      if i < |w.tasks| && w.tasks[i].Revocation? && w.tasks[i].holds && w.tasks[i].stored && w.tasks[i].op < |w.ops| {
        BumpKeeps(w, i, expiry);
      }
    case EndRevoke(i) =>
      if i < |w.tasks| && w.tasks[i].Revocation? && w.tasks[i].holds && w.tasks[i].op < |w.ops| {
        LetsGo(w, i, Revocation(w.tasks[i].grant, w.tasks[i].op, w.tasks[i].stored, false), expiry);
      }
    case SwapPointer(t) => if t in w.pointer { SwapKeeps(w, t, expiry); }
    case Remove(i) =>
      if i < |w.tasks| && w.tasks[i].Untracking? && w.tasks[i].op < |w.ops| {
        RemoveKeeps(w, w.tasks[i].op, w.tasks[i].transport, expiry);
      }
    case PruneOne(o) => if o < |w.ops| { PruneKeeps(w, o, expiry); }
    case Fire(o, entry) => TaskStarts(w, Firing(o, entry, w.clock), Next(w, step, expiry), expiry);
    case Expire(i) =>
      if i < |w.tasks| && w.tasks[i].Firing? && w.tasks[i].op < |w.ops| { ExpireKeeps(w, i, expiry); }
    case Close => CloseKeeps(w, expiry);
    case BeginStop(order) => if w.closed && Enumerates(order, w.mapped) { BeginStopKeeps(w, order, expiry); }
    case StopOne(i) =>
      if i < |w.tasks| && w.tasks[i].Stopping? && w.tasks[i].left != [] && !w.tasks[i].detached
         && w.tasks[i].left[0] < |w.ops| { StopOneKeeps(w, i, expiry); }
    case ReleaseOne(i) =>
      if i < |w.tasks| && w.tasks[i].Stopping? && w.tasks[i].left != [] && w.tasks[i].detached
         && w.tasks[i].left[0] < |w.ops| { ReleaseOneKeeps(w, i, expiry); }
  }

  lemma StoredKeeps(w: World, i: nat, expiry: Grant -> int)
    requires Inv(w, expiry) && i < |w.tasks| && w.tasks[i].Revocation? && w.tasks[i].holds
    ensures Inv(Next(w, RevokeStored(i), expiry), expiry)
  {
    var a := w.tasks[i];
    RevokedGrows(w, a.grant, expiry);
    var w1 := w.(revoked := w.revoked + {a.grant});
    assert TaskOk(w1, a);
    TaskMoves(w1, i, a.(stored := true), expiry);
  }

  lemma {:induction false} RunKeeps(w: World, steps: seq<Step>, expiry: Grant -> int)
    requires Inv(w, expiry)
    ensures Inv(Run(w, steps, expiry), expiry)
    decreases |steps|
  {
    hide Inv;
    hide Next;
    if steps != [] {
      NextKeeps(w, steps[0], expiry);
      RunKeeps(Next(w, steps[0], expiry), steps[1..], expiry);
    }
  }

  // ------------------------------------------------------------------ what runs guarantee

  lemma StartInv(expiry: Grant -> int)
    ensures Inv(START, expiry)
  {
  }

  lemma {:induction false} EndedStays(w: World, steps: seq<Step>, expiry: Grant -> int)
    ensures w.ended <= Run(w, steps, expiry).ended
    decreases |steps|
  {
    hide Next;
    if steps != [] {
      EndedGrows(w, steps[0], expiry);
      EndedStays(Next(w, steps[0], expiry), steps[1..], expiry);
    }
  }

  lemma EndedGrows(w: World, step: Step, expiry: Grant -> int)
    ensures w.ended <= Next(w, step, expiry).ended
  {
    hide Removed;
    hide Enumerates;
  }

  /** Once a revoke bumped the epoch, or the expiry pass ran, no later state tracks a transport of that grant. */
  lemma EndedForGood(before: seq<Step>, after: seq<Step>, g: Grant, expiry: Grant -> int)
    requires g in Run(START, before, expiry).ended
    ensures var w := Run(Run(START, before, expiry), after, expiry);
            forall o :: 0 <= o < |w.ops| && w.ops[o].grant == g ==> w.ops[o].transports == {}
  {
    hide Run;
    hide TasksOk;
    StartInv(expiry);
    RunKeeps(START, before, expiry);
    var mid := Run(START, before, expiry);
    RunKeeps(mid, after, expiry);
    EndedStays(mid, after, expiry);
    var w := Run(mid, after, expiry);
    assert EndedOk(w, g, expiry);
  }

  /** A successful revocation's bump is what ends its grant. */
  lemma BumpEnds(w: World, i: nat, expiry: Grant -> int)
    requires Inv(w, expiry) && i < |w.tasks| && w.tasks[i].Revocation? && w.tasks[i].holds && w.tasks[i].stored
    ensures w.tasks[i].op < |w.ops| && w.ops[w.tasks[i].op].grant == w.tasks[i].grant
    ensures w.tasks[i].grant in Next(w, Bump(i), expiry).ended
  {
    assert TaskOk(w, w.tasks[i]);
  }

  /** Once the stop pass went through its list, no grant tracks any transport, ever. */
  lemma {:induction false} StoppedForGood(w: World, i: nat, after: seq<Step>, expiry: Grant -> int)
    requires Inv(w, expiry) && i < |w.tasks| && w.tasks[i] == Stopping([], false)
    ensures var w' := Run(w, after, expiry); forall o :: 0 <= o < |w'.ops| ==> w'.ops[o].transports == {}
    decreases |after|
  {
    if after == [] {
      assert TaskOk(w, w.tasks[i]);
    } else {
      hide Inv;
      hide Next;
      NextKeeps(w, after[0], expiry);
      StopStays(w, i, after[0], expiry);
      StoppedForGood(Next(w, after[0], expiry), i, after[1..], expiry);
      assert Run(w, after, expiry) == Run(Next(w, after[0], expiry), after[1..], expiry);
    }
  }

  lemma StopStays(w: World, i: nat, step: Step, expiry: Grant -> int)
    requires i < |w.tasks| && w.tasks[i] == Stopping([], false)
    ensures i < |Next(w, step, expiry).tasks| && Next(w, step, expiry).tasks[i] == Stopping([], false)
  {
    hide Removed;
    hide Enumerates;
  }

  /** Operations in use are the mapped ones, transports have a timer, references are the procedures under way. */
  lemma OperationsUnique(steps: seq<Step>, o: nat, expiry: Grant -> int)
    requires o < |Run(START, steps, expiry).ops|
    ensures var w := Run(START, steps, expiry);
            var op := w.ops[o];
            && (op.refs != 0 || op.transports != {} || op.timer.Some? ==> op.grant in w.mapped && w.mapped[op.grant] == o)
            && (op.timer.Some? <==> op.transports != {})
            && op.refs == Holders(w.tasks, o) >= 0
  {
    hide Run;
    StartInv(expiry);
    RunKeeps(START, steps, expiry);
    var w := Run(START, steps, expiry);
    assert Busy(w.ops[o]) <==> w.ops[o].refs != 0 || w.ops[o].transports != {} || w.ops[o].timer.Some?;
  }

  /** A timer entry that is no operation's current timer. */
  ghost predicate Stale(w: World, o: nat, entry: nat) {
    entry < w.entries && forall q :: 0 <= q < |w.ops| ==>
      !(w.ops[q].timer.Some? && w.ops[q].timer.value.entry == entry && q == o)
  }

  lemma StaleStays(w: World, step: Step, o: nat, entry: nat, expiry: Grant -> int)
    requires Stale(w, o, entry)
    ensures Stale(Next(w, step, expiry), o, entry)
  {
    hide Holds;
    hide Enumerates;
  }

  /** A timer that was stopped or replaced never becomes current again, and its callback changes nothing. */
  lemma {:induction false} StaleTimerIsIdle(w: World, after: seq<Step>, o: nat, entry: nat, i: nat, expiry: Grant -> int)
    requires Stale(w, o, entry)
    ensures var w' := Run(w, after, expiry);
            i < |w'.tasks| && w'.tasks[i].Firing? && w'.tasks[i].op == o && w'.tasks[i].entry == entry
            ==> Next(w', Expire(i), expiry) == w'
    decreases |after|
  {
    if after != [] {
      hide Next;
      StaleStays(w, after[0], o, entry, expiry);
      StaleTimerIsIdle(Next(w, after[0], expiry), after[1..], o, entry, i, expiry);
    }
  }
}
