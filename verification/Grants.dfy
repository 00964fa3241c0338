/**
 Admission, revocation and expiry of grant transports. Every function below is one critical
 section; a `Task` is a procedure between two of them, with no lock held.

 `ops` is every coordination object ever created, `mapped` the server's table of them. An
 admission's transport is named by the admission's place in `tasks`. `ended` remembers the
 grants whose revocation bumped the epoch or whose expiry pass ran.
 */
module Grants {

  type Grant = string

  datatype Option<+T> = None | Some(value: T)

  datatype Timer = Timer(entry: nat, expiresAt: int)

  datatype Op = Op(grant: Grant, epoch: nat, transports: set<nat>, timer: Option<Timer>, refs: int)

  datatype Reason = Revoked | Expired | Shutdown

  datatype Stage = Acquired | EpochRead(epoch: nat) | Queried(epoch: nat, active: bool) | Admitted | Refused(reason: Reason)

  datatype Task =
    | Admission(grant: Grant, op: nat, stage: Stage, holds: bool)
    | Revocation(grant: Grant, op: nat, stored: bool, holds: bool)
    | Untracking(transport: nat, op: nat)
    | Firing(op: nat, entry: nat, now: int)
    | Stopping(left: seq<nat>, detached: bool)

  datatype World = World(
    clock: int,
    closed: bool,
    revoked: set<Grant>,
    ops: seq<Op>,
    mapped: map<Grant, nat>,
    pointer: map<nat, nat>,
    entries: nat,
    tasks: seq<Task>,
    ended: set<Grant>)

  const START: World := World(0, false, {}, [], map[], map[], 0, [], {})

  // ------------------------------------------------------------------ the operation table

  function WithOp(w: World, o: nat, op: Op): World
    requires o < |w.ops|
  {
    w.(ops := w.ops[o := op])
  }

  function WithTask(w: World, i: nat, t: Task): World
    requires i < |w.tasks|
  {
    w.(tasks := w.tasks[i := t])
  }

  /** The place of the operation acquireGrantOperation finds or creates. */
  function Place(w: World, g: Grant): nat {
    if g in w.mapped then w.mapped[g] else |w.ops|
  }

  /** acquireGrantOperation */
  function Acquire(w: World, g: Grant): World {
    if g in w.mapped && w.mapped[g] < |w.ops| then
      WithOp(w, w.mapped[g], w.ops[w.mapped[g]].(refs := w.ops[w.mapped[g]].refs + 1))
    else
      w.(ops := w.ops + [Op(g, 0, {}, None, 1)], mapped := w.mapped[g := |w.ops|])
  }

  /** pruneGrantOperationLocked */
  function Prune(w: World, o: nat): World
    requires o < |w.ops|
  {
    var op := w.ops[o];
    if op.refs == 0 && op.grant in w.mapped && w.mapped[op.grant] == o && op.transports == {} && op.timer.None?
    then w.(mapped := w.mapped - {op.grant}) else w
  }

  /** releaseGrantOperation */
  function Release(w: World, o: nat): World
    requires o < |w.ops|
  {
    Prune(WithOp(w, o, w.ops[o].(refs := w.ops[o].refs - 1)), o)
  }

  /** epoch++ and detachGrantTransportsLocked */
  function Detached(op: Op): Op {
    op.(epoch := op.epoch + 1, transports := {}, timer := None)
  }

  function Unpoint(pointer: map<nat, nat>, o: nat, transports: set<nat>): map<nat, nat> {
    map t | t in pointer && !(t in transports && pointer[t] == o) :: pointer[t]
  }

  function Detach(w: World, o: nat): World
    requires o < |w.ops|
  {
    WithOp(w, o, Detached(w.ops[o])).(pointer := Unpoint(w.pointer, o, w.ops[o].transports))
  }

  // ------------------------------------------------------------------ critical sections

  datatype Step =
    | Tick(elapsed: nat)
    | BeginAdmit(grant: Grant)
    | ReadEpoch(i: nat)
    | QueryStore(i: nat, known: bool)
    | Recheck(i: nat)
    | EndAdmit(i: nat)
    | BeginRevoke(grant: Grant)
    | RevokeStored(i: nat)
    | Bump(i: nat)
    | EndRevoke(i: nat)
    | SwapPointer(transport: nat)
    | Remove(i: nat)
    | PruneOne(o: nat)
    | Fire(o: nat, entry: nat)
    | Expire(i: nat)
    | Close
    | BeginStop(order: seq<nat>)
    | StopOne(i: nat)
    | ReleaseOne(i: nat)

  /** The second section of admitTransport. */
  function DecideAdmission(w: World, i: nat, expiry: Grant -> int): World
    requires i < |w.tasks| && w.tasks[i].Admission? && w.tasks[i].stage.Queried? && w.tasks[i].op < |w.ops|
  {
    var t := w.tasks[i];
    var op := w.ops[t.op];
    if w.closed then WithTask(w, i, t.(stage := Refused(Shutdown)))
    else if w.clock >= expiry(t.grant) then
      WithTask(Detach(w, t.op), i, t.(stage := Refused(Expired))).(ended := w.ended + {t.grant})
    else if op.epoch != t.stage.epoch || !t.stage.active then WithTask(w, i, t.(stage := Refused(Revoked)))
    else
      var timer := if op.timer.Some? then op.timer else Some(Timer(w.entries, expiry(t.grant)));
      WithTask(WithOp(w, t.op, op.(transports := op.transports + {i}, timer := timer)), i, t.(stage := Admitted))
      .(pointer := w.pointer[i := t.op], entries := if op.timer.Some? then w.entries else w.entries + 1)
  }

  /** The locked part of untrackTransport. */
  function Removed(op: Op, transport: nat): Op {
    var left := op.transports - {transport};
    op.(transports := left, timer := if left == {} then None else op.timer)
  }

  /** expireGrantOperation, with the clock it read before taking the lock. */
  function RunTimer(w: World, f: Task, expiry: Grant -> int): World
    requires f.Firing? && f.op < |w.ops|
  {
    var op := w.ops[f.op];
    if op.timer.None? || op.timer.value.entry != f.entry || f.now < op.timer.value.expiresAt then w
    else Detach(w, f.op).(ended := w.ended + {op.grant})
  }

  function HoldAll(ops: seq<Op>, held: seq<nat>): (r: seq<Op>)
    ensures |r| == |ops|
    ensures forall o :: 0 <= o < |ops| ==> r[o] == if o in held then ops[o].(refs := ops[o].refs + 1) else ops[o]
  {
    seq(|ops|, o requires 0 <= o < |ops| => if o in held then ops[o].(refs := ops[o].refs + 1) else ops[o])
  }

  ghost predicate Enumerates(order: seq<nat>, mapped: map<Grant, nat>) {
    && (forall i, j :: 0 <= i < j < |order| ==> order[i] != order[j])
    && (forall o :: o in order <==> exists g :: g in mapped && mapped[g] == o)
  }

  /** One critical section. A disabled step leaves the world as it is. */
  ghost function Next(w: World, step: Step, expiry: Grant -> int): World {
    match step
    case Tick(elapsed) => w.(clock := w.clock + elapsed)
    case BeginAdmit(g) =>
      var w' := Acquire(w, g);
      w'.(tasks := w.tasks + [Admission(g, Place(w, g), Acquired, true)])
    case ReadEpoch(i) =>
      if i < |w.tasks| && w.tasks[i].Admission? && w.tasks[i].stage.Acquired? && w.tasks[i].op < |w.ops|
      then WithTask(w, i, w.tasks[i].(stage := EpochRead(w.ops[w.tasks[i].op].epoch))) else w
    case QueryStore(i, known) =>
      if i < |w.tasks| && w.tasks[i].Admission? && w.tasks[i].stage.EpochRead?
      then
        var t := w.tasks[i];
        WithTask(w, i, t.(stage := Queried(t.stage.epoch,
                                           known && w.clock < expiry(t.grant) && t.grant !in w.revoked)))
      else w
    case Recheck(i) =>
      if i < |w.tasks| && w.tasks[i].Admission? && w.tasks[i].stage.Queried? && w.tasks[i].op < |w.ops|
      then DecideAdmission(w, i, expiry) else w
    case EndAdmit(i) =>
      if i < |w.tasks| && w.tasks[i].Admission? && w.tasks[i].holds && w.tasks[i].op < |w.ops|
         && (w.tasks[i].stage.Admitted? || w.tasks[i].stage.Refused?)
      then Release(WithTask(w, i, Admission(w.tasks[i].grant, w.tasks[i].op, w.tasks[i].stage, false)), w.tasks[i].op)
      else w
    case BeginRevoke(g) =>
      var w' := Acquire(w, g);
      w'.(tasks := w.tasks + [Revocation(g, Place(w, g), false, true)])
    case RevokeStored(i) =>
      if i < |w.tasks| && w.tasks[i].Revocation? && w.tasks[i].holds
      then WithTask(w, i, w.tasks[i].(stored := true)).(revoked := w.revoked + {w.tasks[i].grant}) else w
    case Bump(i) =>
      if i < |w.tasks| && w.tasks[i].Revocation? && w.tasks[i].holds && w.tasks[i].stored && w.tasks[i].op < |w.ops|
      then Detach(w, w.tasks[i].op).(ended := w.ended + {w.tasks[i].grant}) else w
    case EndRevoke(i) =>
      if i < |w.tasks| && w.tasks[i].Revocation? && w.tasks[i].holds && w.tasks[i].op < |w.ops|
      then Release(WithTask(w, i, Revocation(w.tasks[i].grant, w.tasks[i].op, w.tasks[i].stored, false)), w.tasks[i].op)
      else w
    case SwapPointer(t) =>
      if t in w.pointer then w.(tasks := w.tasks + [Untracking(t, w.pointer[t])], pointer := w.pointer - {t}) else w
    case Remove(i) =>
      if i < |w.tasks| && w.tasks[i].Untracking? && w.tasks[i].op < |w.ops|
      then WithOp(w, w.tasks[i].op, Removed(w.ops[w.tasks[i].op], w.tasks[i].transport)) else w
    case PruneOne(o) => if o < |w.ops| then Prune(w, o) else w
    case Fire(o, entry) => w.(tasks := w.tasks + [Firing(o, entry, w.clock)])
    case Expire(i) =>
      if i < |w.tasks| && w.tasks[i].Firing? && w.tasks[i].op < |w.ops| then RunTimer(w, w.tasks[i], expiry) else w
    case Close => w.(closed := true)
    case BeginStop(order) =>
      if w.closed && Enumerates(order, w.mapped)
      then w.(ops := HoldAll(w.ops, order), tasks := w.tasks + [Stopping(order, false)]) else w
    case StopOne(i) =>
      if i < |w.tasks| && w.tasks[i].Stopping? && w.tasks[i].left != [] && !w.tasks[i].detached && w.tasks[i].left[0] < |w.ops|
      then WithTask(Detach(w, w.tasks[i].left[0]), i, w.tasks[i].(detached := true)) else w
    case ReleaseOne(i) =>
      if i < |w.tasks| && w.tasks[i].Stopping? && w.tasks[i].left != [] && w.tasks[i].detached && w.tasks[i].left[0] < |w.ops|
      then Release(WithTask(w, i, Stopping(w.tasks[i].left[1..], false)), w.tasks[i].left[0]) else w
  }

  ghost function Run(w: World, steps: seq<Step>, expiry: Grant -> int): World
    decreases |steps|
  {
    if steps == [] then w else Run(Next(w, steps[0], expiry), steps[1..], expiry)
  }

  // ------------------------------------------------------------------ the invariant

  /** How many references a procedure holds on an operation. */
  function Holds(t: Task, o: nat): nat {
    match t
    case Admission(_, op, _, holds) => if holds && op == o then 1 else 0
    case Revocation(_, op, _, holds) => if holds && op == o then 1 else 0
    case Stopping(left, _) => if o in left then 1 else 0
    case _ => 0
  }

  function Holders(tasks: seq<Task>, o: nat): nat {
    if tasks == [] then 0 else Holders(tasks[..|tasks| - 1], o) + Holds(tasks[|tasks| - 1], o)
  }

  /** References are exactly the procedures still holding the operation. */
  ghost predicate Counted(w: World) {
    forall o :: 0 <= o < |w.ops| ==> w.ops[o].refs == Holders(w.tasks, o)
  }

  predicate Busy(op: Op) {
    op.refs != 0 || op.transports != {} || op.timer.Some?
  }

  /** An operation with references, transports or a timer is the one mapped for its grant. */
  ghost predicate Unique(w: World) {
    && (forall g :: g in w.mapped ==> w.mapped[g] < |w.ops| && w.ops[w.mapped[g]].grant == g)
    && (forall o :: 0 <= o < |w.ops| && Busy(w.ops[o]) ==>
          w.ops[o].grant in w.mapped && w.mapped[w.ops[o].grant] == o)
  }

  /** Exactly the operations with transports have a timer, for their grant's expiry, each its own. */
  ghost predicate Timed(w: World, expiry: Grant -> int) {
    && (forall o :: 0 <= o < |w.ops| ==> (w.ops[o].timer.Some? <==> w.ops[o].transports != {}))
    && (forall o :: 0 <= o < |w.ops| && w.ops[o].timer.Some? ==>
          w.ops[o].timer.value.expiresAt == expiry(w.ops[o].grant) && w.ops[o].timer.value.entry < w.entries)
    && (forall o, q :: 0 <= o < q < |w.ops| && w.ops[o].timer.Some? && w.ops[q].timer.Some? ==>
          w.ops[o].timer.value.entry != w.ops[q].timer.value.entry)
  }

  ghost predicate AdmittedTo(w: World, t: nat, o: nat) {
    t < |w.tasks| && w.tasks[t].Admission? && w.tasks[t].op == o && w.tasks[t].stage.Admitted?
  }

  /** A tracked transport was admitted, to this operation, and its pointer leads nowhere else. */
  ghost predicate Tracked(w: World) {
    && (forall o :: 0 <= o < |w.ops| ==> forall t :: t in w.ops[o].transports ==> AdmittedTo(w, t, o))
    && (forall t: nat :: t in w.pointer ==>
          t < |w.tasks| && w.tasks[t].Admission? && w.tasks[t].op == w.pointer[t] && w.pointer[t] < |w.ops|)
  }

  ghost predicate TaskOk(w: World, t: Task) {
    match t
    case Admission(g, o, stage, holds) =>
      && o < |w.ops| && w.ops[o].grant == g
      && (stage.Acquired? || stage.EpochRead? || stage.Queried? ==> holds)
      && (stage.EpochRead? || stage.Queried? ==> stage.epoch <= w.ops[o].epoch)
    case Revocation(g, o, stored, holds) =>
      o < |w.ops| && w.ops[o].grant == g && (stored ==> g in w.revoked)
    case Untracking(t, o) => o < |w.ops|
    case Firing(_, _, now) => now <= w.clock
    case Stopping(left, detached) =>
      && w.closed
      && (forall i :: 0 <= i < |left| ==> left[i] < |w.ops|)
      && (forall i, j :: 0 <= i < j < |left| ==> left[i] != left[j])
      && (detached ==> left != [])
      && (forall o :: 0 <= o < |w.ops| && w.ops[o].transports != {} ==>
            o in left && !(detached && o == left[0]))
  }

  ghost predicate TasksOk(w: World) {
    forall i :: 0 <= i < |w.tasks| ==> TaskOk(w, w.tasks[i])
  }

  /** An admission of an ended grant that still thinks it may track will see a newer epoch. */
  ghost predicate Outdated(w: World, t: Task, expiry: Grant -> int)
    requires t.Admission? && t.op < |w.ops|
  {
    t.stage.Queried? && t.stage.active ==> t.stage.epoch < w.ops[t.op].epoch || w.clock >= expiry(t.grant)
  }

  ghost predicate EndedOk(w: World, g: Grant, expiry: Grant -> int)
    requires TasksOk(w)
  {
    && (g in w.revoked || w.clock >= expiry(g))
    && (forall o :: 0 <= o < |w.ops| && w.ops[o].grant == g ==> w.ops[o].transports == {})
    && (forall i :: 0 <= i < |w.tasks| && w.tasks[i].Admission? && w.tasks[i].grant == g ==>
          (assert TaskOk(w, w.tasks[i]); Outdated(w, w.tasks[i], expiry)))
  }

  ghost predicate Inv(w: World, expiry: Grant -> int) {
    && Counted(w) && Unique(w) && Timed(w, expiry) && Tracked(w) && TasksOk(w)
    && (forall g :: g in w.ended ==> EndedOk(w, g, expiry))
  }

  // ------------------------------------------------------------------ counting references

  lemma {:induction false} HoldersUpdate(tasks: seq<Task>, i: nat, t: Task, o: nat)
    requires i < |tasks|
    ensures Holders(tasks[i := t], o) == Holders(tasks, o) - Holds(tasks[i], o) + Holds(t, o)
  {
    hide Holds;
    var init, n := tasks[..|tasks| - 1], |tasks| - 1;
    if i < n {
      HoldersUpdate(init, i, t, o);
      assert tasks[i := t][..n] == init[i := t];
    } else {
      assert tasks[i := t][..n] == init;
    }
  }

  lemma HoldersSnoc(tasks: seq<Task>, t: Task, o: nat)
    ensures Holders(tasks + [t], o) == Holders(tasks, o) + Holds(t, o)
  {
    hide Holds;
    assert (tasks + [t])[..|tasks|] == tasks;
  }

  lemma {:induction false} HoldersAtLeast(tasks: seq<Task>, i: nat, o: nat)
    requires i < |tasks|
    ensures Holds(tasks[i], o) <= Holders(tasks, o)
  {
    hide Holds;
    if i < |tasks| - 1 { HoldersAtLeast(tasks[..|tasks| - 1], i, o); }
  }

  /** A procedure that holds an operation keeps it mapped. */
  lemma HeldIsMapped(w: World, i: nat, o: nat)
    requires Counted(w) && Unique(w) && i < |w.tasks| && o < |w.ops| && Holds(w.tasks[i], o) > 0
    ensures w.ops[o].grant in w.mapped && w.mapped[w.ops[o].grant] == o
  {
    hide Holds;
    HoldersAtLeast(w.tasks, i, o);
  }

  // ------------------------------------------------------------------ one task changes

  /** What a change of one procedure's state must respect. */
  ghost predicate Replaceable(w: World, i: nat, t: Task, expiry: Grant -> int)
    requires i < |w.tasks|
  {
    && TaskOk(w, t)
    && (forall o :: Holds(t, o) == Holds(w.tasks[i], o))
    && (w.tasks[i].Admission? ==> t.Admission? && t.grant == w.tasks[i].grant && t.op == w.tasks[i].op)
    && (t.Admission? ==> w.tasks[i].Admission?)
    && (w.tasks[i].Admission? && w.tasks[i].stage.Admitted? ==> t.stage.Admitted?)
    && (t.Admission? && t.grant in w.ended ==> Outdated(w, t, expiry))
  }

  lemma TaskMoves(w: World, i: nat, t: Task, expiry: Grant -> int)
    requires Inv(w, expiry) && i < |w.tasks| && Replaceable(w, i, t, expiry)
    ensures Inv(WithTask(w, i, t), expiry)
  {
    hide Holds;
    hide Holders;
    var w' := WithTask(w, i, t);
    assert Counted(w') by {
      forall o | 0 <= o < |w'.ops| ensures w'.ops[o].refs == Holders(w'.tasks, o) { HoldersUpdate(w.tasks, i, t, o); }
    }
    assert Unique(w') && Timed(w', expiry) by { hide TaskOk; }
    TaskTracked(w, i, t);
    assert TasksOk(w') by {
      forall j | 0 <= j < |w'.tasks| ensures TaskOk(w', w'.tasks[j]) {
        assert j != i ==> TaskOk(w, w.tasks[j]);
        SameTask(w, w', w'.tasks[j]);
      }
    }
    hide TaskOk;
    forall g | g in w'.ended ensures EndedOk(w', g, expiry) {
      assert EndedOk(w, g, expiry);
      EndedMoves(w, w', i, t, g, expiry);
    }
  }

  lemma TaskTracked(w: World, i: nat, t: Task)
    requires Tracked(w) && i < |w.tasks|
    requires w.tasks[i].Admission? ==> t.Admission? && t.op == w.tasks[i].op
    requires w.tasks[i].Admission? && w.tasks[i].stage.Admitted? ==> t.stage.Admitted?
    ensures Tracked(WithTask(w, i, t))
  {
    var w' := WithTask(w, i, t);
    forall o: nat, k: nat | o < |w'.ops| && k in w'.ops[o].transports ensures AdmittedTo(w', k, o) {
      assert AdmittedTo(w, k, o);
    }
  }

  lemma DetachTracked(w: World, o: nat)
    requires Tracked(w) && o < |w.ops|
    ensures Tracked(Detach(w, o))
  {
    var w' := Detach(w, o);
    forall q: nat, t: nat | q < |w'.ops| && t in w'.ops[q].transports ensures AdmittedTo(w', t, q) {
      assert t in w.ops[q].transports && AdmittedTo(w, t, q);
    }
  }

  lemma EndedMoves(w: World, w': World, i: nat, t: Task, g: Grant, expiry: Grant -> int)
    requires TasksOk(w) && TasksOk(w') && i < |w.tasks| && w' == WithTask(w, i, t)
    requires EndedOk(w, g, expiry)
    requires t.Admission? && t.grant == g && t.op < |w.ops| ==> Outdated(w, t, expiry)
    ensures EndedOk(w', g, expiry)
  {
    forall j | 0 <= j < |w'.tasks| && w'.tasks[j].Admission? && w'.tasks[j].grant == g
      ensures TaskOk(w', w'.tasks[j]) && Outdated(w', w'.tasks[j], expiry)
    {
      assert TaskOk(w', w'.tasks[j]);
      if j != i { assert w'.tasks[j] == w.tasks[j] && TaskOk(w, w.tasks[j]); }
    }
  }

  /** Whether a procedure is in order depends on the operations, the clock and the flags alone. */
  lemma SameTask(w: World, w': World, t: Task)
    requires w'.ops == w.ops && w'.clock == w.clock && w'.closed == w.closed && w'.revoked == w.revoked && TaskOk(w, t)
    ensures TaskOk(w', t)
  {
  }

  // ------------------------------------------------------------------ detaching

  lemma DetachTasks(w: World, o: nat)
    requires TasksOk(w) && o < |w.ops|
    ensures TasksOk(Detach(w, o))
  {
    var w' := Detach(w, o);
    forall i | 0 <= i < |w'.tasks| ensures TaskOk(w', w'.tasks[i]) {
      assert TaskOk(w, w.tasks[i]);
    }
  }

  lemma DetachEnded(w: World, o: nat, g: Grant, expiry: Grant -> int)
    requires o < |w.ops| && TasksOk(w) && TasksOk(Detach(w, o)) && EndedOk(w, g, expiry)
    ensures EndedOk(Detach(w, o), g, expiry)
  {
    var w' := Detach(w, o);
    forall j | 0 <= j < |w'.tasks| && w'.tasks[j].Admission? && w'.tasks[j].grant == g
      ensures TaskOk(w', w'.tasks[j]) && Outdated(w', w'.tasks[j], expiry)
    {
      assert TaskOk(w', w'.tasks[j]) && TaskOk(w, w.tasks[j]);
    }
  }

  /** Detaching an operation only takes transports, timers and pointers away, and raises its epoch. */
  lemma DetachKeeps(w: World, o: nat, expiry: Grant -> int)
    requires Inv(w, expiry) && o < |w.ops|
    ensures Inv(Detach(w, o), expiry)
  {
    hide TaskOk;
    var w' := Detach(w, o);
    DetachTasks(w, o);
    forall g | g in w'.ended ensures EndedOk(w', g, expiry) { DetachEnded(w, o, g, expiry); }
    hide EndedOk;
    assert Counted(w') by { hide Unique; hide Timed; hide Tracked; hide TasksOk; }
    assert Unique(w') by { hide Counted; hide Timed; hide Tracked; hide TasksOk; }
    assert Timed(w', expiry) by { hide Counted; hide Unique; hide Tracked; hide TasksOk; }
    DetachTracked(w, o);
    hide Counted; hide Unique; hide Timed; hide Tracked; hide TasksOk;
  }
}
