/**
 Handles of the client binding: operations, sessions and streams in three tables, and the
 drain of a session that is being closed.

 `fired` counts, per session, the closes that CloseSession started, `events` the SessionClosed
 events.
 */
module BindingEngine {

  datatype Option<+T> = None | Some(value: T)

  const MAX_LIVE: nat := 4096
  const MAX_HANDLE: nat := 18446744073709551615

  /** A session of 0 is none. */
  datatype Operation = Operation(session: nat, done: bool)

  datatype Session = Session(activeOps: int, closing: bool, closeStarted: bool, closed: bool)

  datatype Stream = Stream(session: nat, closed: bool)

  datatype Engine = Engine(
    nextHandle: nat,
    operations: map<nat, Operation>,
    sessions: map<nat, Session>,
    streams: map<nat, Stream>,
    closed: bool,
    fired: multiset<nat>,
    events: multiset<nat>)

  const FRESH: Engine := Engine(0, map[], map[], map[], false, multiset{}, multiset{})

  /** The unfinished operations of a session. */
  function Running(operations: map<nat, Operation>, s: nat): set<nat> {
    set h | h in operations && !operations[h].done && operations[h].session == s
  }

  // ------------------------------------------------------------------ operations

  predicate CanAllocate(e: Engine) {
    |e.operations| + |e.sessions| + |e.streams| < MAX_LIVE && e.nextHandle < MAX_HANDLE
  }

  function StartOperation(e: Engine): Engine {
    if e.closed || !CanAllocate(e) then e
    else e.(nextHandle := e.nextHandle + 1, operations := e.operations[e.nextHandle + 1 := Operation(0, false)])
  }

  /** An opened session gets its handle. */
  function OpenSession(e: Engine): Engine {
    if e.closed || !CanAllocate(e) then e
    else e.(nextHandle := e.nextHandle + 1,
            sessions := e.sessions[e.nextHandle + 1 := Session(0, false, false, false)])
  }

  predicate Usable(e: Engine, s: nat) {
    !e.closed && s in e.sessions && !e.sessions[s].closing && !e.sessions[s].closed
  }

  /** startSessionOperation */
  function StartSessionOperation(e: Engine, s: nat): Engine {
    if !Usable(e, s) || !CanAllocate(e) then e
    else
      var h := e.nextHandle + 1;
      e.(nextHandle := h, operations := e.operations[h := Operation(s, false)],
         sessions := e.sessions[s := e.sessions[s].(activeOps := e.sessions[s].activeOps + 1)])
  }

  function OpenStream(e: Engine, s: nat): Engine {
    if !Usable(e, s) || !CanAllocate(e) then e
    else e.(nextHandle := e.nextHandle + 1, streams := e.streams[e.nextHandle + 1 := Stream(s, false)])
  }

  /** markOperationDone; it does not ask whether the operation was done before. */
  function MarkDone(e: Engine, h: nat): Engine {
    if h !in e.operations then e
    else
      var s := e.operations[h].session;
      var e1 := e.(operations := e.operations[h := e.operations[h].(done := true)]);
      if s == 0 || s !in e.sessions then e1
      else
        var r := e.sessions[s];
        var active := if r.activeOps > 0 then r.activeOps - 1 else r.activeOps;
        var fire := r.closing && active == 0 && !r.closeStarted && !r.closed;
        e1.(sessions := e.sessions[s := r.(activeOps := active, closeStarted := r.closeStarted || fire)],
            fired := if fire then e.fired + multiset{s} else e.fired)
  }

  /** Every stream of the session ends. */
  function WithoutSession(streams: map<nat, Stream>, s: nat): (r: map<nat, Stream>)
    ensures r.Keys == streams.Keys
    ensures forall h :: h in streams ==>
              r[h].session == streams[h].session && (r[h].closed <==> streams[h].closed || streams[h].session == s)
  {
    map h | h in streams :: if streams[h].session == s then streams[h].(closed := true) else streams[h]
  }

  /** CloseSession; the session itself is closed at once only when nothing runs. */
  function CloseSession(e: Engine, s: nat): Engine {
    if e.closed || s !in e.sessions || e.sessions[s].closed || e.sessions[s].closing then e
    else
      var r := e.sessions[s];
      var fire := r.activeOps == 0;
      e.(sessions := e.sessions[s := r.(closing := true, closeStarted := r.closeStarted || fire)],
         streams := WithoutSession(e.streams, s),
         fired := if fire then e.fired + multiset{s} else e.fired)
  }

  /** finishSession */
  function FinishSession(e: Engine, s: nat): Engine {
    if s !in e.sessions || e.sessions[s].closed then e
    else e.(sessions := e.sessions[s := e.sessions[s].(closed := true)], events := e.events + multiset{s})
  }

  function FinishStream(e: Engine, h: nat): Engine {
    if h !in e.streams then e else e.(streams := e.streams[h := e.streams[h].(closed := true)])
  }

  /** Release */
  function Release(e: Engine, h: nat): Engine {
    if e.closed then e
    else if h in e.operations then (if e.operations[h].done then e.(operations := e.operations - {h}) else e)
    else if h in e.sessions then (if e.sessions[h].closed then e.(sessions := e.sessions - {h}) else e)
    else if h in e.streams then (if e.streams[h].closed then e.(streams := e.streams - {h}) else e)
    else e
  }

  /** Close starts closing every session that is neither closed nor being closed. */
  function CloseEngine(e: Engine): Engine {
    if e.closed then e
    else e.(closed := true,
            sessions := map s | s in e.sessions ::
              if !e.sessions[s].closed then e.sessions[s].(closeStarted := true) else e.sessions[s],
            streams := map h | h in e.streams :: e.streams[h].(closed := true))
  }

  datatype Step =
    | DoStart
    | DoOpen
    | DoStartIn(session: nat)
    | DoStream(session: nat)
    | DoDone(handle: nat)
    | DoCloseSession(session: nat)
    | DoFinish(session: nat)
    | DoFinishStream(handle: nat)
    | DoRelease(handle: nat)
    | DoClose

  function Next(e: Engine, step: Step): Engine {
    match step
    case DoStart => StartOperation(e)
    case DoOpen => OpenSession(e)
    case DoStartIn(s) => StartSessionOperation(e, s)
    case DoStream(s) => OpenStream(e, s)
    case DoDone(h) => MarkDone(e, h)
    case DoCloseSession(s) => CloseSession(e, s)
    case DoFinish(s) => FinishSession(e, s)
    case DoFinishStream(h) => FinishStream(e, h)
    case DoRelease(h) => Release(e, h)
    case DoClose => CloseEngine(e)
  }

  function Run(e: Engine, steps: seq<Step>): Engine
    decreases |steps|
  {
    if steps == [] then e else Run(Next(e, steps[0]), steps[1..])
  }

  // ------------------------------------------------------------------ the invariant

  /** Handles are drawn from one sequence, and a live one is in one table. */
  ghost predicate Handles(e: Engine) {
    && (forall h :: h in e.operations ==> 0 < h <= e.nextHandle && h !in e.sessions && h !in e.streams)
    && (forall h :: h in e.operations ==> e.operations[h].session <= e.nextHandle)
    && (forall h :: h in e.sessions ==> 0 < h <= e.nextHandle && h !in e.streams)
    && (forall h :: h in e.streams ==> 0 < h <= e.nextHandle && e.streams[h].session <= e.nextHandle)
  }

  /** A session that is being closed has no open stream. */
  ghost predicate Quiet(e: Engine) {
    forall h :: h in e.streams && e.streams[h].session in e.sessions && e.sessions[e.streams[h].session].closing ==>
      e.streams[h].closed
  }

  /** No session has more than one close or event, and only a session that exists or existed. */
  ghost predicate Once(e: Engine) {
    forall s :: e.fired[s] <= 1 && e.events[s] <= 1 && (s > e.nextHandle || s == 0 ==> e.fired[s] == 0 && e.events[s] == 0)
  }

  /** A session's record against its unfinished operations, the closes fired and the events sent. */
  ghost predicate RecordOk(r: Session, running: set<nat>, fired: nat, events: nat, engineClosed: bool) {
    && r.activeOps == |running|
    && fired <= 1 && events == (if r.closed then 1 else 0)
    && (fired == 1 ==> r.closing && r.closeStarted && running == {})
    && (!r.closing ==> fired == 0)
    && (!engineClosed ==> (r.closeStarted <==> fired == 1))
    && (r.closing && !r.closed && !r.closeStarted ==> running != {})
    && (engineClosed && !r.closed ==> r.closeStarted)
  }

  ghost predicate Records(e: Engine) {
    forall s :: s in e.sessions ==>
      RecordOk(e.sessions[s], Running(e.operations, s), e.fired[s], e.events[s], e.closed)
  }

  /** Every session's counter is the number of its unfinished operations. */
  ghost predicate Counted(e: Engine) {
    forall s :: s in e.sessions ==> e.sessions[s].activeOps == |Running(e.operations, s)|
  }

  ghost predicate Inv(e: Engine) {
    Handles(e) && Once(e) && Records(e) && Quiet(e)
  }

  // ------------------------------------------------------------------ every step keeps it

  lemma RunningAdds(operations: map<nat, Operation>, h: nat, o: Operation, s: nat)
    requires h !in operations && !o.done
    ensures Running(operations[h := o], s) == if o.session == s then Running(operations, s) + {h} else Running(operations, s)
    ensures h !in Running(operations, s)
  {
  }

  lemma RunningEnds(operations: map<nat, Operation>, h: nat, s: nat)
    requires h in operations && !operations[h].done
    ensures Running(operations[h := operations[h].(done := true)], s) == Running(operations, s) - {h}
    ensures h in Running(operations, s) <==> operations[h].session == s
  {
  }

  lemma RunningForgets(operations: map<nat, Operation>, h: nat, s: nat)
    requires h in operations && operations[h].done
    ensures Running(operations - {h}, s) == Running(operations, s)
  {
  }

  /** A handle nobody has yet is in no table and no operation's session. */
  lemma Nobody(e: Engine)
    requires Handles(e)
    ensures var h := e.nextHandle + 1;
            h !in e.operations && h !in e.sessions && h !in e.streams && Running(e.operations, h) == {}
  {
  }

  lemma StartInHandles(e: Engine, s: nat)
    requires Handles(e)
    ensures Handles(StartSessionOperation(e, s))
  {
    hide CanAllocate;
    Nobody(e);
  }

  lemma StartInRecord(r: Session, running: set<nat>, h: nat, fired: nat, events: nat)
    requires RecordOk(r, running, fired, events, false) && h !in running && !r.closing && !r.closed
    ensures RecordOk(r.(activeOps := r.activeOps + 1), running + {h}, fired, events, false)
  {
  }

  lemma StartInKeeps(e: Engine, s: nat)
    requires Inv(e)
    ensures Inv(StartSessionOperation(e, s))
  {
    hide Running;
    hide CanAllocate;
    hide RecordOk;
    StartInHandles(e, s);
    Nobody(e);
    hide Handles;
    var e', h := StartSessionOperation(e, s), e.nextHandle + 1;
    if Usable(e, s) && CanAllocate(e) {
      RunningAdds(e.operations, h, Operation(s, false), s);
      StartInRecord(e.sessions[s], Running(e.operations, s), h, e.fired[s], e.events[s]);
      forall t | t in e'.sessions
        ensures RecordOk(e'.sessions[t], Running(e'.operations, t), e'.fired[t], e'.events[t], e'.closed)
      {
        RunningAdds(e.operations, h, Operation(s, false), t);
      }
    }
  }

  lemma DoneHandles(e: Engine, h: nat)
    requires Handles(e)
    ensures Handles(MarkDone(e, h))
  {
  }

  lemma DoneRecord(r: Session, running: set<nat>, h: nat, fired: nat, events: nat, engineClosed: bool)
    requires RecordOk(r, running, fired, events, engineClosed) && h in running
    ensures var active := if r.activeOps > 0 then r.activeOps - 1 else r.activeOps;
            var fire := r.closing && active == 0 && !r.closeStarted && !r.closed;
            && RecordOk(r.(activeOps := active, closeStarted := r.closeStarted || fire), running - {h},
                        if fire then fired + 1 else fired, events, engineClosed)
            && (fire ==> fired == 0 && running - {h} == {})
  {
    assert |running - {h}| == |running| - 1;
    assert fired != 1;
  }

  /** An operation marked done a second time while others of its session run. */
  ghost predicate Repeats(e: Engine, h: nat) {
    && h in e.operations && e.operations[h].done
    && e.operations[h].session in e.sessions && e.sessions[e.operations[h].session].activeOps > 0
  }

  lemma FirstDoneKeeps(e: Engine, h: nat)
    requires Inv(e) && h in e.operations && !e.operations[h].done
    ensures Inv(MarkDone(e, h))
  {
    hide Running;
    hide RecordOk;
    DoneHandles(e, h);
    hide Handles;
    var e' := MarkDone(e, h);
    if h in e.operations && !e.operations[h].done {
      var s := e.operations[h].session;
      RunningEnds(e.operations, h, s);
      if s in e.sessions {
        DoneRecord(e.sessions[s], Running(e.operations, s), h, e.fired[s], e.events[s], e.closed);
      }
      assert s == 0 ==> s !in e.sessions by { ZeroIsNone(e); }
      forall t | t in e'.sessions
        ensures RecordOk(e'.sessions[t], Running(e'.operations, t), e'.fired[t], e'.events[t], e'.closed)
      {
        RunningEnds(e.operations, h, t);
        if t != s { assert Running(e.operations, t) - {h} == Running(e.operations, t); }
      }
      assert Once(e') by { DoneOnce(e, h); }
    }
  }

  /** Marking again changes nothing when nothing of the session runs. */
  lemma IdleDone(e: Engine, h: nat)
    requires Inv(e) && h in e.operations && e.operations[h].done && !Repeats(e, h)
    ensures MarkDone(e, h) == e
  {
    hide Running;
    hide Handles;
    hide Quiet;
    var s := e.operations[h].session;
    if s in e.sessions { assert RecordOk(e.sessions[s], Running(e.operations, s), e.fired[s], e.events[s], e.closed); }
  }

  /** The session's counter falls behind its running operations. */
  lemma RepeatBreaks(e: Engine, h: nat)
    requires Inv(e) && Repeats(e, h)
    ensures !Counted(MarkDone(e, h)) && !Inv(MarkDone(e, h))
  {
    hide Running;
    ZeroIsNone(e);
    var s, e' := e.operations[h].session, MarkDone(e, h);
    assert RecordOk(e.sessions[s], Running(e.operations, s), e.fired[s], e.events[s], e.closed);
    assert e'.operations == e.operations;
    assert e'.sessions[s].activeOps == e.sessions[s].activeOps - 1;
    InvCounted(e');
  }

  lemma InvCounted(e: Engine)
    ensures Inv(e) ==> Counted(e)
  {
    hide Running;
    hide Handles;
    hide Quiet;
  }

  /** Marking an operation done keeps the account exactly when it is not a repetition under way. */
  lemma DoneKeepsIff(e: Engine, h: nat)
    requires Inv(e)
    ensures Inv(MarkDone(e, h)) <==> !Repeats(e, h)
  {
    if Repeats(e, h) {
      RepeatBreaks(e, h);
    } else if h in e.operations {
      if e.operations[h].done { IdleDone(e, h); } else { FirstDoneKeeps(e, h); }
    }
  }

  lemma ZeroIsNone(e: Engine)
    requires Inv(e)
    ensures 0 !in e.sessions
  {
  }

  lemma DoneOnce(e: Engine, h: nat)
    requires Inv(e) && h in e.operations && !e.operations[h].done
    ensures Once(MarkDone(e, h))
  {
    hide Running;
    var s := e.operations[h].session;
    RunningEnds(e.operations, h, s);
    if s in e.sessions {
      assert RecordOk(e.sessions[s], Running(e.operations, s), e.fired[s], e.events[s], e.closed);
      DoneRecord(e.sessions[s], Running(e.operations, s), h, e.fired[s], e.events[s], e.closed);
    }
  }

  lemma CloseSessionTables(e: Engine, s: nat)
    requires Handles(e) && Quiet(e)
    ensures Handles(CloseSession(e, s)) && Quiet(CloseSession(e, s))
  {
  }

  lemma CloseSessionKeeps(e: Engine, s: nat)
    requires Inv(e)
    ensures Inv(CloseSession(e, s))
  {
    CloseSessionTables(e, s);
    ZeroIsNone(e);
    assert s in e.sessions ==> s <= e.nextHandle;
    hide Running;
    hide WithoutSession;
    hide Handles;
    hide Quiet;
    var e' := CloseSession(e, s);
    if !(e.closed || s !in e.sessions || e.sessions[s].closed || e.sessions[s].closing) {
      assert RecordOk(e.sessions[s], Running(e.operations, s), e.fired[s], e.events[s], e.closed);
      forall t | t in e'.sessions
        ensures RecordOk(e'.sessions[t], Running(e'.operations, t), e'.fired[t], e'.events[t], e'.closed)
      {
        assert RecordOk(e.sessions[t], Running(e.operations, t), e.fired[t], e.events[t], e.closed);
      }
    }
  }

  lemma FinishKeeps(e: Engine, s: nat)
    requires Inv(e)
    ensures Inv(FinishSession(e, s))
  {
    hide Running;
    var e' := FinishSession(e, s);
    if s in e.sessions && !e.sessions[s].closed {
      assert RecordOk(e.sessions[s], Running(e.operations, s), e.fired[s], e.events[s], e.closed);
      assert Handles(e') by { hide Once; hide Records; }
      forall t | t in e'.sessions
        ensures RecordOk(e'.sessions[t], Running(e'.operations, t), e'.fired[t], e'.events[t], e'.closed)
      {
        assert RecordOk(e.sessions[t], Running(e.operations, t), e.fired[t], e.events[t], e.closed);
      }
    }
  }

  lemma OpenKeeps(e: Engine)
    requires Inv(e)
    ensures Inv(OpenSession(e))
  {
    hide Running;
    hide CanAllocate;
    var e', h := OpenSession(e), e.nextHandle + 1;
    if !e.closed && CanAllocate(e) {
      Nobody(e);
      assert Handles(e') by { hide Once; hide Records; }
      forall t | t in e'.sessions
        ensures RecordOk(e'.sessions[t], Running(e'.operations, t), e'.fired[t], e'.events[t], e'.closed)
      {
        if t != h { assert RecordOk(e.sessions[t], Running(e.operations, t), e.fired[t], e.events[t], e.closed); }
      }
    }
  }

  lemma StartKeeps(e: Engine)
    requires Inv(e)
    ensures Inv(StartOperation(e))
  {
    hide Running;
    hide CanAllocate;
    hide RecordOk;
    var e', h := StartOperation(e), e.nextHandle + 1;
    if !e.closed && CanAllocate(e) {
      Nobody(e);
      ZeroIsNone(e);
      assert Handles(e') by { hide Once; hide Records; }
      forall t | t in e'.sessions
        ensures RecordOk(e'.sessions[t], Running(e'.operations, t), e'.fired[t], e'.events[t], e'.closed)
      {
        RunningAdds(e.operations, h, Operation(0, false), t);
      }
    }
  }

  lemma SameRecords(e: Engine, e': Engine)
    requires Records(e) && Once(e) && e'.operations == e.operations && e'.sessions == e.sessions
    requires e'.fired == e.fired && e'.events == e.events && e'.closed == e.closed && e'.nextHandle >= e.nextHandle
    ensures Records(e') && Once(e')
  {
    hide Running;
    hide RecordOk;
  }

  lemma OpenStreamKeeps(e: Engine, s: nat)
    requires Inv(e)
    ensures Inv(OpenStream(e, s))
  {
    hide CanAllocate;
    hide Records;
    hide Once;
    Nobody(e);
    SameRecords(e, OpenStream(e, s));
  }

  lemma FinishStreamKeeps(e: Engine, h: nat)
    requires Inv(e)
    ensures Inv(FinishStream(e, h))
  {
    hide Records;
    hide Once;
    SameRecords(e, FinishStream(e, h));
  }

  lemma ReleaseHandles(e: Engine, h: nat)
    requires Handles(e)
    ensures Handles(Release(e, h))
  {
  }

  lemma ReleaseKeeps(e: Engine, h: nat)
    requires Inv(e)
    ensures Inv(Release(e, h))
  {
    hide Running;
    hide RecordOk;
    ReleaseHandles(e, h);
    hide Handles;
    var e' := Release(e, h);
    forall t | t in e'.sessions
      ensures RecordOk(e'.sessions[t], Running(e'.operations, t), e'.fired[t], e'.events[t], e'.closed)
    {
      if h in e.operations && e.operations[h].done { RunningForgets(e.operations, h, t); }
    }
  }

  lemma CloseEngineKeeps(e: Engine)
    requires Inv(e)
    ensures Inv(CloseEngine(e))
  {
    hide Running;
    var e' := CloseEngine(e);
    if !e.closed {
      forall t | t in e'.sessions
        ensures RecordOk(e'.sessions[t], Running(e'.operations, t), e'.fired[t], e'.events[t], e'.closed)
      {
        assert RecordOk(e.sessions[t], Running(e.operations, t), e.fired[t], e.events[t], e.closed);
      }
    }
  }

  ghost predicate Unruly(e: Engine, step: Step) {
    step.DoDone? && Repeats(e, step.handle)
  }

  lemma NextKeeps(e: Engine, step: Step)
    requires Inv(e)
    ensures Inv(Next(e, step)) <==> !Unruly(e, step)
  {
    hide Inv;
    hide Repeats;
    match step
    case DoStart => StartKeeps(e);
    case DoOpen => OpenKeeps(e);
    case DoStartIn(s) => StartInKeeps(e, s);
    case DoStream(s) => OpenStreamKeeps(e, s);
    case DoDone(h) => DoneKeepsIff(e, h);
    case DoCloseSession(s) => CloseSessionKeeps(e, s);
    case DoFinish(s) => FinishKeeps(e, s);
    case DoFinishStream(h) => FinishStreamKeeps(e, h);
    case DoRelease(h) => ReleaseKeeps(e, h);
    case DoClose => CloseEngineKeeps(e);
  }

  /** No operation of the run is marked done again while others of its session run. */
  ghost predicate Orderly(e: Engine, steps: seq<Step>)
    decreases |steps|
  {
    steps == [] || (!Unruly(e, steps[0]) && Orderly(Next(e, steps[0]), steps[1..]))
  }

  ghost predicate AlwaysCounted(e: Engine, steps: seq<Step>)
    decreases |steps|
  {
    Counted(e) && (steps == [] || AlwaysCounted(Next(e, steps[0]), steps[1..]))
  }

  lemma {:induction false} RunKeepsIff(e: Engine, steps: seq<Step>)
    requires Inv(e)
    ensures AlwaysCounted(e, steps) <==> Orderly(e, steps)
    ensures Orderly(e, steps) ==> Inv(Run(e, steps))
    decreases |steps|
  {
    InvCounted(e);
    hide Inv;
    hide Next;
    hide Counted;
    if steps != [] {
      NextKeeps(e, steps[0]);
      if Unruly(e, steps[0]) {
        Uncounted(e, steps[0], steps[1..]);
      } else {
        RunKeepsIff(Next(e, steps[0]), steps[1..]);
      }
    }
  }

  lemma Uncounted(e: Engine, step: Step, rest: seq<Step>)
    requires Inv(e) && Unruly(e, step)
    ensures !AlwaysCounted(Next(e, step), rest)
  {
    hide Inv;
    RepeatBreaks(e, step.handle);
  }

  // ------------------------------------------------------------------ what runs guarantee

  /** The counters are exact throughout a run exactly when no operation is marked done twice under way. */
  lemma CountsExactIff(steps: seq<Step>)
    ensures AlwaysCounted(FRESH, steps) <==> Orderly(FRESH, steps)
  {
    assert Inv(FRESH);
    RunKeepsIff(FRESH, steps);
  }

  /** An operation reported done twice takes the other one off the count. */
  lemma RepeatLosesOperation()
    ensures var e := Next(Next(Next(Next(Next(FRESH, DoOpen), DoStartIn(1)), DoStartIn(1)), DoDone(2)), DoDone(2));
            1 in e.sessions && e.sessions[1].activeOps == 0 && Running(e.operations, 1) == {3}
  {
    var e1 := Next(FRESH, DoOpen);
    assert e1.sessions == map[1 := Session(0, false, false, false)] && e1.nextHandle == 1;
    var e2 := Next(e1, DoStartIn(1));
    assert e2.operations == map[2 := Operation(1, false)] && e2.nextHandle == 2;
    var e3 := Next(e2, DoStartIn(1));
    assert e3.operations == map[2 := Operation(1, false), 3 := Operation(1, false)];
    assert e3.sessions == map[1 := Session(2, false, false, false)];
  }

  /** What holds of one session. */
  ghost predicate Drains(e: Engine, s: nat) {
    && e.fired[s] <= 1 && e.events[s] <= 1
    && (s in e.sessions ==>
          && e.sessions[s].activeOps == |Running(e.operations, s)|
          && (e.fired[s] == 1 ==> Running(e.operations, s) == {})
          && (e.sessions[s].closing && Running(e.operations, s) == {} && !e.sessions[s].closed ==> e.sessions[s].closeStarted)
          && (e.sessions[s].closed <==> e.events[s] == 1)
          && (e.sessions[s].closing ==> forall h :: h in e.streams && e.streams[h].session == s ==> e.streams[h].closed))
  }

  /**
   After every orderly run: a session's counter is the number of its unfinished operations; a
   close that CloseSession started happened once and with nothing running; a session being
   closed with nothing left to run has been closed, and has no open stream; it has one
   SessionClosed event exactly when it is closed.
   */
  lemma DrainExact(steps: seq<Step>, s: nat)
    ensures Orderly(FRESH, steps) ==> Drains(Run(FRESH, steps), s)
  {
    hide Run;
    hide Orderly;
    hide Running;
    assert Inv(FRESH);
    RunKeepsIff(FRESH, steps);
    var e := Run(FRESH, steps);
    if Inv(e) && s in e.sessions {
      assert RecordOk(e.sessions[s], Running(e.operations, s), e.fired[s], e.events[s], e.closed);
    }
  }

  lemma NobodyThere(e: Engine)
    requires Inv(e)
    ensures var h := e.nextHandle + 1; h !in e.operations && h !in e.sessions && h !in e.streams
  {
    Nobody(e);
  }

  lemma ClosingStays(e: Engine, step: Step, s: nat)
    requires s in e.sessions && e.sessions[s].closing && e.nextHandle + 1 !in e.sessions
    ensures s in Next(e, step).sessions ==> Next(e, step).sessions[s].closing
  {
    hide CanAllocate;
    hide WithoutSession;
  }

  /** Nothing starts in a session that is being closed: its operations only become fewer. */
  lemma ClosingNeverGrows(e: Engine, step: Step, s: nat)
    requires Inv(e) && s in e.sessions && e.sessions[s].closing
    ensures Running(Next(e, step).operations, s) <= Running(e.operations, s)
    ensures s in Next(e, step).sessions ==> Next(e, step).sessions[s].closing
  {
    hide Inv;
    hide CanAllocate;
    hide Running;
    hide WithoutSession;
    ZeroIsNone(e);
    NobodyThere(e);
    ClosingStays(e, step, s);
    var h := e.nextHandle + 1;
    match step
    case DoStart => RunningAdds(e.operations, h, Operation(0, false), s);
    case DoStartIn(t) => if t != s { RunningAdds(e.operations, h, Operation(t, false), s); }
    case DoDone(k) =>
      if k in e.operations {
        if e.operations[k].done {
          assert e.operations[k := e.operations[k].(done := true)] == e.operations;
        } else {
          RunningEnds(e.operations, k, s);
        }
      }
    case DoRelease(k) => if k in e.operations && e.operations[k].done { RunningForgets(e.operations, k, s); }
    case _ =>
  }

  lemma HandlesOnlyGrow(e: Engine, step: Step, h: nat)
    requires h <= e.nextHandle
    ensures h in Next(e, step).operations ==> h in e.operations
    ensures h in Next(e, step).sessions ==> h in e.sessions
    ensures h in Next(e, step).streams ==> h in e.streams
    ensures e.nextHandle <= Next(e, step).nextHandle
  {
    hide CanAllocate;
    hide WithoutSession;
  }

  /** A handle that was given out and is gone from a table. */
  ghost predicate Gone(e: Engine, e': Engine, h: nat) {
    && h <= e'.nextHandle
    && (h !in e.operations ==> h !in e'.operations)
    && (h !in e.sessions ==> h !in e'.sessions)
    && (h !in e.streams ==> h !in e'.streams)
  }

  lemma {:induction false} NeverReturns(e: Engine, ys: seq<Step>, h: nat)
    requires h <= e.nextHandle
    ensures Gone(e, Run(e, ys), h)
    decreases |ys|
  {
    hide Next;
    if ys != [] {
      HandlesOnlyGrow(e, ys[0], h);
      NeverReturns(Next(e, ys[0]), ys[1..], h);
    }
  }

  lemma {:induction false} RunConcat(e: Engine, xs: seq<Step>, ys: seq<Step>)
    ensures Run(e, xs + ys) == Run(Run(e, xs), ys)
    decreases |xs|
  {
    hide Next;
    if xs == [] {
      assert xs + ys == ys;
    } else {
      assert (xs + ys)[1..] == xs[1..] + ys;
      RunConcat(Next(e, xs[0]), xs[1..], ys);
    }
  }

  /** In no run is a handle that was given out before given out again, in any of the three tables. */
  lemma HandlesNeverReused(xs: seq<Step>, ys: seq<Step>, h: nat)
    requires h <= Run(FRESH, xs).nextHandle
    ensures Gone(Run(FRESH, xs), Run(FRESH, xs + ys), h)
  {
    hide Run;
    hide Gone;
    RunConcat(FRESH, xs, ys);
    NeverReturns(Run(FRESH, xs), ys, h);
  }

  // ------------------------------------------------------------------ what the calls do

  predicate HasRoom(e: Engine) {
    !e.closed && |e.operations| + |e.sessions| + |e.streams| < 4096 && e.nextHandle < 18446744073709551615
  }

  /** An open session of an open engine. */
  predicate TakesWork(e: Engine, s: nat) {
    s in e.sessions && !e.sessions[s].closing && !e.sessions[s].closed
  }

  /** An operation starts exactly with room. */
  lemma StartActs(e: Engine)
    ensures var h, e' := e.nextHandle + 1, Next(e, DoStart);
            if HasRoom(e) then e' == e.(nextHandle := h, operations := e.operations[h := Operation(0, false)]) else e' == e
  {
  }

  /** An operation starts in a session exactly with room and while the session takes work, and is counted there. */
  lemma StartInActs(e: Engine, s: nat)
    requires Inv(e)
    ensures var h, e' := e.nextHandle + 1, Next(e, DoStartIn(s));
            if HasRoom(e) && TakesWork(e, s)
            then && e'.nextHandle == h && h !in e.operations && e'.operations == e.operations[h := Operation(s, false)]
                 && Running(e'.operations, s) == Running(e.operations, s) + {h}
                 && e'.sessions.Keys == e.sessions.Keys && e'.sessions[s].activeOps == |Running(e'.operations, s)|
                 && TakesWork(e', s) && e'.streams == e.streams && e'.fired == e.fired && e'.events == e.events
            else e' == e
  {
    hide Inv;
    hide Running;
    NobodyThere(e);
    CountedRight(e, s);
    RunningGrows(e.operations, e.nextHandle + 1, s);
  }

  lemma CountedRight(e: Engine, s: nat)
    requires Inv(e)
    ensures s in e.sessions ==> e.sessions[s].activeOps == |Running(e.operations, s)|
  {
    if s in e.sessions {
      assert RecordOk(e.sessions[s], Running(e.operations, s), e.fired[s], e.events[s], e.closed);
    }
  }

  lemma RunningGrows(operations: map<nat, Operation>, h: nat, s: nat)
    requires h !in operations
    ensures Running(operations[h := Operation(s, false)], s) == Running(operations, s) + {h}
    ensures |Running(operations[h := Operation(s, false)], s)| == |Running(operations, s)| + 1
  {
    assert Running(operations[h := Operation(s, false)], s) == Running(operations, s) + {h};
  }

  /** A session is opened exactly with room; a stream exactly with room in a session that takes work. */
  lemma OpenActs(e: Engine, s: nat)
    requires Inv(e)
    ensures var h, e' := e.nextHandle + 1, Next(e, DoOpen);
            if HasRoom(e) then && h !in e.sessions && TakesWork(e', h) && e'.sessions == e.sessions[h := e'.sessions[h]]
                               && e' == e.(nextHandle := h, sessions := e'.sessions)
            else e' == e
    ensures var h, e' := e.nextHandle + 1, Next(e, DoStream(s));
            if HasRoom(e) && TakesWork(e, s)
            then h !in e.streams && e' == e.(nextHandle := h, streams := e.streams[h := Stream(s, false)])
            else e' == e
  {
    NobodyThere(e);
    hide Inv;
  }

  /** An operation done is unfinished no more, and the last one of a closing session fires its close. */
  lemma DoneActs(e: Engine, h: nat)
    requires Inv(e) && h in e.operations && !e.operations[h].done
    ensures var e', s := Next(e, DoDone(h)), e.operations[h].session;
            && e'.operations == e.operations[h := Operation(s, true)]
            && Running(e'.operations, s) == Running(e.operations, s) - {h}
            && (forall t :: t != s ==> Running(e'.operations, t) == Running(e.operations, t))
            && e'.fired == (if s in e.sessions && e.sessions[s].closing && !e.sessions[s].closed && !e.sessions[s].closeStarted
                               && Running(e.operations, s) == {h}
                            then e.fired + multiset{s} else e.fired)
            && (s in e.sessions && e.sessions[s].closing && Running(e.operations, s) == {h} && !e.sessions[s].closed ==>
                  s in e'.sessions && e'.sessions[s].closeStarted)
  {
    var s, e' := e.operations[h].session, Next(e, DoDone(h));
    assert h in Running(e.operations, s);
    RunningShrinks(e.operations, h);
    if s in e.sessions {
      assert s > 0;
      assert RecordOk(e.sessions[s], Running(e.operations, s), e.fired[s], e.events[s], e.closed);
      OnlyOne(Running(e.operations, s), h);
    }
    hide Inv;
    hide Running;
  }

  lemma RunningShrinks(operations: map<nat, Operation>, h: nat)
    requires h in operations && !operations[h].done
    ensures var after, s := operations[h := Operation(operations[h].session, true)], operations[h].session;
            && Running(after, s) == Running(operations, s) - {h}
            && forall t :: t != s ==> Running(after, t) == Running(operations, t)
  {
    var after, s := operations[h := Operation(operations[h].session, true)], operations[h].session;
    forall t | t != s ensures Running(after, t) == Running(operations, t) {
      assert forall k :: k in Running(after, t) <==> k in Running(operations, t);
    }
  }

  lemma OnlyOne(running: set<nat>, h: nat)
    requires h in running
    ensures |running| == 1 <==> running == {h}
  {
    assert running == (running - {h}) + {h};
    assert |running| == |running - {h}| + 1;
    if |running| == 1 { assert running - {h} == {}; }
  }

  /** Closing a session ends its streams and no other, lets nothing start in it, and fires at once exactly when nothing runs. */
  lemma CloseActs(e: Engine, s: nat)
    requires Inv(e)
    ensures var e' := Next(e, DoCloseSession(s));
            if !e.closed && s in e.sessions && !e.sessions[s].closed && !e.sessions[s].closing
            then && e'.operations == e.operations && e'.sessions.Keys == e.sessions.Keys && e'.sessions[s].closing && !TakesWork(e', s)
                 && (forall t :: t in e.sessions && t != s ==> e'.sessions[t] == e.sessions[t])
                 && e'.streams.Keys == e.streams.Keys
                 && (forall h :: h in e.streams ==> e'.streams[h].closed == (e.streams[h].closed || e.streams[h].session == s))
                 && e'.fired == (if Running(e.operations, s) == {} then e.fired + multiset{s} else e.fired)
                 && (Running(e.operations, s) == {} ==> e'.sessions[s].closeStarted)
            else e' == e
  {
    if s in e.sessions {
      assert RecordOk(e.sessions[s], Running(e.operations, s), e.fired[s], e.events[s], e.closed);
      assert |Running(e.operations, s)| == 0 <==> Running(e.operations, s) == {};
    }
    hide Inv;
    hide Running;
    hide WithoutSession;
  }

  lemma NothingRuns(e: Engine, s: nat)
    requires Inv(e)
    ensures s in e.sessions ==> (e.sessions[s].activeOps == 0 <==> Running(e.operations, s) == {})
  {
    if s in e.sessions {
      assert RecordOk(e.sessions[s], Running(e.operations, s), e.fired[s], e.events[s], e.closed);
    }
  }

  /** A finished session is closed with its one event; a finished stream is closed; a closed engine takes nothing more. */
  lemma FinishActs(e: Engine, s: nat, h: nat)
    ensures var e' := Next(e, DoFinish(s));
            if s in e.sessions && !e.sessions[s].closed
            then e'.sessions == e.sessions[s := e.sessions[s].(closed := true)] && e'.events == e.events + multiset{s}
            else e' == e
    ensures h in e.streams ==> Next(e, DoFinishStream(h)).streams == e.streams[h := Stream(e.streams[h].session, true)]
    ensures var e' := Next(e, DoClose);
            && e'.closed && e'.operations == e.operations && !HasRoom(e')
            && (!e.closed ==> && e'.sessions.Keys == e.sessions.Keys && e'.streams.Keys == e.streams.Keys
                              && (forall t :: t in e.sessions && !e.sessions[t].closed ==> e'.sessions[t].closeStarted)
                              && (forall k :: k in e.streams ==> e'.streams[k].closed))
  {
  }

  predicate Over(e: Engine, h: nat) {
    (h in e.operations && e.operations[h].done) || (h in e.sessions && e.sessions[h].closed) || (h in e.streams && e.streams[h].closed)
  }

  /** A handle is released exactly when what it stands for is over. */
  lemma ReleaseActs(e: Engine, h: nat)
    requires Inv(e)
    ensures var e' := Next(e, DoRelease(h));
            if !e.closed && Over(e, h)
            then e'.operations == e.operations - {h} && e'.sessions == e.sessions - {h} && e'.streams == e.streams - {h}
            else e' == e
  {
    assert Handles(e);
    hide Inv;
  }

  // ------------------------------------------------------------------ the object

  class BindingTables {
    var nextHandle: nat
    var operations: map<nat, Operation>
    var sessions: map<nat, Session>
    var streams: map<nat, Stream>
    var closed: bool
    ghost var fired: multiset<nat>
    ghost var events: multiset<nat>

    ghost function View(): Engine
      reads this
    {
      Engine(nextHandle, operations, sessions, streams, closed, fired, events)
    }

    constructor ()
      ensures View() == FRESH && Inv(View())
    {
      nextHandle, operations, sessions, streams, closed := 0, map[], map[], map[], false;
      fired, events := multiset{}, multiset{};
    }

    /** startSessionOperation; None when the session is gone, closing or closed, or handles ran out. */
    method StartIn(s: nat) returns (handle: Option<nat>)
      requires Inv(View())
      modifies this
      ensures View() == StartSessionOperation(old(View()), s) && Inv(View())
      ensures handle.Some? ==> Usable(old(View()), s) && handle.value == nextHandle == old(nextHandle) + 1
      ensures handle.Some? <==> HasRoom(old(View())) && TakesWork(old(View()), s)
    {
      hide Inv;
      StartInKeeps(View(), s);
      if closed || s !in sessions || sessions[s].closing || sessions[s].closed {
        return None;
      }
      if |operations| + |sessions| + |streams| >= MAX_LIVE || nextHandle >= MAX_HANDLE {
        return None;
      }
      nextHandle := nextHandle + 1;
      operations := operations[nextHandle := Operation(s, false)];
      sessions := sessions[s := sessions[s].(activeOps := sessions[s].activeOps + 1)];
      handle := Some(nextHandle);
    }

    /** markOperationDone: the session to close now, if the last operation of a closing one is done. */
    method OperationDone(h: nat) returns (close: Option<nat>)
      requires Inv(View())
      modifies this
      ensures View() == MarkDone(old(View()), h)
      ensures Inv(View()) <==> !Repeats(old(View()), h)
      ensures close.Some? ==> fired[close.value] == old(fired)[close.value] + 1
    {
      hide Inv;
      hide Repeats;
      DoneKeepsIff(View(), h);
      close := None;
      if h !in operations {
        return;
      }
      var s := operations[h].session;
      operations := operations[h := operations[h].(done := true)];
      if s != 0 && s in sessions {
        var r := sessions[s];
        if r.activeOps > 0 { r := r.(activeOps := r.activeOps - 1); }
        if r.closing && r.activeOps == 0 && !r.closeStarted && !r.closed {
          r := r.(closeStarted := true);
          close := Some(s);
          fired := fired + multiset{s};
        }
        sessions := sessions[s := r];
      }
    }

    /** CloseSession: closes the session's streams, and says whether to close the session now. */
    method BeginClose(s: nat) returns (fire: bool)
      requires Inv(View())
      modifies this
      ensures View() == CloseSession(old(View()), s) && Inv(View())
      ensures fire ==> s in old(sessions) && old(sessions)[s].activeOps == 0
      ensures fire <==> !old(closed) && s in old(sessions) && !old(sessions)[s].closed && !old(sessions)[s].closing
                        && Running(old(operations), s) == {}
    {
      NothingRuns(View(), s);
      hide Inv;
      hide WithoutSession;
      CloseSessionKeeps(View(), s);
      fire := false;
      if closed || s !in sessions || sessions[s].closed || sessions[s].closing {
        return;
      }
      var r := sessions[s];
      fire := r.activeOps == 0;
      if fire { fired := fired + multiset{s}; }
      sessions := sessions[s := r.(closing := true, closeStarted := r.closeStarted || fire)];
      var ended := EndStreams(streams, s);
      streams := ended;
    }

    method EndStreams(from: map<nat, Stream>, s: nat) returns (ended: map<nat, Stream>)
      ensures ended == WithoutSession(from, s)
    {
      ended := from;
      var left := from.Keys;
      while left != {}
        invariant left <= from.Keys && ended.Keys == from.Keys
        invariant forall h :: h in from ==>
                    ended[h] == if h !in left && from[h].session == s then from[h].(closed := true) else from[h]
        decreases |left|
      {
        var h :| h in left;
        if ended[h].session == s && !ended[h].closed { ended := ended[h := ended[h].(closed := true)]; }
        left := left - {h};
      }
    }

    /** allocateHandleLocked; None when handles ran out. */
    method Allocate() returns (handle: Option<nat>)
      modifies this`nextHandle
      ensures handle.Some? <==> CanAllocate(old(View()))
      ensures handle.Some? ==> handle.value == nextHandle == old(nextHandle) + 1
      ensures handle.None? ==> nextHandle == old(nextHandle)
    {
      if |operations| + |sessions| + |streams| >= MAX_LIVE || nextHandle >= MAX_HANDLE {
        return None;
      }
      nextHandle := nextHandle + 1;
      handle := Some(nextHandle);
    }

    /** startOperation */
    method Start() returns (handle: Option<nat>)
      requires Inv(View())
      modifies this
      ensures View() == StartOperation(old(View())) && Inv(View())
    {
      hide Inv;
      hide CanAllocate;
      StartKeeps(View());
      if closed {
        return None;
      }
      handle := Allocate();
      if handle.Some? { operations := operations[nextHandle := Operation(0, false)]; }
    }

    /** A session that was opened gets its handle. */
    method Open() returns (handle: Option<nat>)
      requires Inv(View())
      modifies this
      ensures View() == OpenSession(old(View())) && Inv(View())
    {
      hide Inv;
      hide CanAllocate;
      OpenKeeps(View());
      if closed {
        return None;
      }
      handle := Allocate();
      if handle.Some? { sessions := sessions[nextHandle := Session(0, false, false, false)]; }
    }

    /** The registering section of OpenResourceStream. */
    method OpenIn(s: nat) returns (handle: Option<nat>)
      requires Inv(View())
      modifies this
      ensures View() == OpenStream(old(View()), s) && Inv(View())
    {
      hide Inv;
      hide CanAllocate;
      OpenStreamKeeps(View(), s);
      if closed || s !in sessions || sessions[s].closing || sessions[s].closed {
        return None;
      }
      handle := Allocate();
      if handle.Some? { streams := streams[nextHandle := Stream(s, false)]; }
    }

    /** A stream ended. */
    method EndStream(h: nat)
      requires Inv(View())
      modifies this
      ensures View() == FinishStream(old(View()), h) && Inv(View())
    {
      hide Inv;
      FinishStreamKeeps(View(), h);
      if h in streams { streams := streams[h := streams[h].(closed := true)]; }
    }

    /** Release: whether the handle was given back. */
    method ReleaseHandle(h: nat) returns (ok: bool)
      requires Inv(View())
      modifies this
      ensures View() == Release(old(View()), h) && Inv(View())
    {
      hide Inv;
      ReleaseKeeps(View(), h);
      ok := false;
      if closed {
        return;
      }
      if h in operations {
        ok := operations[h].done;
        if ok { operations := operations - {h}; }
      } else if h in sessions {
        ok := sessions[h].closed;
        if ok { sessions := sessions - {h}; }
      } else if h in streams {
        ok := streams[h].closed;
        if ok { streams := streams - {h}; }
      }
    }

    /** Close: starts closing every session that is not closed, and ends every stream. */
    method CloseEverything()
      requires Inv(View())
      modifies this
      ensures View() == CloseEngine(old(View())) && Inv(View())
    {
      hide Inv;
      CloseEngineKeeps(View());
      if closed {
        return;
      }
      closed := true;
      var after := StartClosing(sessions);
      var ended := EndAll(streams);
      sessions, streams := after, ended;
    }

    method StartClosing(from: map<nat, Session>) returns (after: map<nat, Session>)
      ensures after == map s | s in from :: if !from[s].closed then from[s].(closeStarted := true) else from[s]
    {
      after := from;
      var left := from.Keys;
      while left != {}
        invariant left <= from.Keys && after.Keys == from.Keys
        invariant forall s :: s in from ==>
                    after[s] == if s !in left && !from[s].closed then from[s].(closeStarted := true) else from[s]
        decreases |left|
      {
        var s :| s in left;
        if !after[s].closed && !after[s].closeStarted { after := after[s := after[s].(closeStarted := true)]; }
        left := left - {s};
      }
    }

    method EndAll(from: map<nat, Stream>) returns (ended: map<nat, Stream>)
      ensures ended == map h | h in from :: from[h].(closed := true)
    {
      ended := from;
      var left := from.Keys;
      while left != {}
        invariant left <= from.Keys && ended.Keys == from.Keys
        invariant forall h :: h in from ==> ended[h] == if h !in left then from[h].(closed := true) else from[h]
        decreases |left|
      {
        var h :| h in left;
        ended := ended[h := ended[h].(closed := true)];
        left := left - {h};
      }
    }

    /** finishSession: whether the SessionClosed event is to be sent. */
    method Finish(s: nat) returns (emit: bool)
      requires Inv(View())
      modifies this
      ensures View() == FinishSession(old(View()), s) && Inv(View())
      ensures emit <==> events[s] == old(events)[s] + 1
    {
      hide Inv;
      FinishKeeps(View(), s);
      emit := s in sessions && !sessions[s].closed;
      if emit {
        sessions := sessions[s := sessions[s].(closed := true)];
        events := events + multiset{s};
      }
    }
  }
}
