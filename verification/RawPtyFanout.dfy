/**
 Bounded fan-out of raw PTY chunks: every subscriber has a queue of its own, and one that is
 full when a chunk arrives ends its stream there.

 `published` remembers every chunk; a subscription remembers where it began, what its client
 took, and where its stream ended.
 */
module RawPtyFanout {

  newtype Byte = x: int | 0 <= x < 256

  type Chunk = seq<Byte>

  datatype Option<+T> = None | Some(value: T)

  /** Chunks a subscriber may be behind. */
  const QUEUE: nat := 16

  datatype Ending = Overflow | Ended(exitCode: Option<int>) | Cancelled

  datatype Closing = Closing(why: Ending, dropped: nat, at: nat)

  datatype Subscription = Subscription(from: nat, taken: seq<Chunk>, queue: seq<Chunk>, closing: Option<Closing>)

  /** `listening` are the subscribers a publish reaches. */
  datatype Broadcaster = Broadcaster(
    nextId: nat,
    subs: map<nat, Subscription>,
    listening: set<nat>,
    closed: bool,
    exitCode: Option<int>,
    published: seq<Chunk>)

  const FRESH: Broadcaster := Broadcaster(0, map[], {}, false, None, [])

  // ------------------------------------------------------------------ operations

  /** rawPTYSubscription.close */
  function Close(s: Subscription, why: Ending, dropped: nat, at: nat): Subscription {
    if s.closing.Some? then s else s.(closing := Some(Closing(why, dropped, at)))
  }

  /** subscribe; a stream that ends at once gets a number of its own, so that it can be told apart. */
  function Subscribe(b: Broadcaster): Broadcaster {
    var id, at := b.nextId + 1, |b.published|;
    if b.closed then
      b.(nextId := id, subs := b.subs[id := Close(Subscription(at, [], [], None), Ended(b.exitCode), 0, at)])
    else b.(nextId := id, subs := b.subs[id := Subscription(at, [], [], None)], listening := b.listening + {id})
  }

  /** One subscriber's part of a publish. */
  function Deliver(s: Subscription, chunk: Chunk, at: nat): Subscription {
    if |s.queue| < QUEUE then s.(queue := s.queue + [chunk]) else Close(s, Overflow, |chunk|, at)
  }

  function DeliverAll(subs: map<nat, Subscription>, to: set<nat>, chunk: Chunk, at: nat): map<nat, Subscription> {
    map id | id in subs :: if id in to then Deliver(subs[id], chunk, at) else subs[id]
  }

  /** The listeners whose queue takes one more. */
  function NotFull(subs: map<nat, Subscription>, listening: set<nat>): set<nat> {
    set id | id in listening && id in subs && |subs[id].queue| < QUEUE
  }

  function CloseEach(subs: map<nat, Subscription>, of: set<nat>, why: Ending, at: nat): map<nat, Subscription> {
    map id | id in subs :: if id in of then Close(subs[id], why, 0, at) else subs[id]
  }

  function Publish(b: Broadcaster, chunk: Chunk): Broadcaster {
    if chunk == [] || b.closed then b
    else
      b.(published := b.published + [chunk],
         subs := DeliverAll(b.subs, b.listening, chunk, |b.published|),
         listening := NotFull(b.subs, b.listening))
  }

  function Unsubscribe(b: Broadcaster, id: nat): Broadcaster {
    if id !in b.listening || id !in b.subs then b
    else b.(listening := b.listening - {id}, subs := b.subs[id := Close(b.subs[id], Cancelled, 0, |b.published|)])
  }

  function CloseAll(b: Broadcaster, exitCode: Option<int>): Broadcaster {
    if b.closed then b
    else
      b.(closed := true, exitCode := exitCode, listening := {},
         subs := CloseEach(b.subs, b.listening, Ended(exitCode), |b.published|))
  }

  /** The client takes the next chunk of its queue, also after its stream ended. */
  function Receive(b: Broadcaster, id: nat): Broadcaster {
    if id !in b.subs || b.subs[id].queue == [] then b
    else
      var s := b.subs[id];
      b.(subs := b.subs[id := s.(taken := s.taken + [s.queue[0]], queue := s.queue[1..])])
  }

  datatype Step = DoSubscribe | DoPublish(chunk: Chunk) | DoUnsubscribe(id: nat) | DoClose(exitCode: Option<int>) | DoReceive(id: nat)

  function Next(b: Broadcaster, step: Step): Broadcaster {
    match step
    case DoSubscribe => Subscribe(b)
    case DoPublish(chunk) => Publish(b, chunk)
    case DoUnsubscribe(id) => Unsubscribe(b, id)
    case DoClose(exitCode) => CloseAll(b, exitCode)
    case DoReceive(id) => Receive(b, id)
  }

  function Run(b: Broadcaster, steps: seq<Step>): Broadcaster
    decreases |steps|
  {
    if steps == [] then b else Run(Next(b, steps[0]), steps[1..])
  }

  // ------------------------------------------------------------------ what a subscriber gets

  /** Where a subscription's stream stands: at its end, or at the latest chunk. */
  function End(s: Subscription, published: seq<Chunk>): nat {
    if s.closing.Some? then s.closing.value.at else |published|
  }

  /**
   A contiguous run of what was published, from the subscription on; after an overflow
   nothing more, and the count is the size of the first chunk missed.
   */
  ghost predicate Contiguous(s: Subscription, published: seq<Chunk>) {
    && s.from <= End(s, published) <= |published|
    && s.taken + s.queue == published[s.from..End(s, published)]
    && |s.queue| <= QUEUE
    && (s.closing.Some? ==>
          if s.closing.value.why == Overflow
          then s.closing.value.at < |published| && s.closing.value.dropped == |published[s.closing.value.at]|
          else s.closing.value.dropped == 0)
  }

  ghost predicate Inv(b: Broadcaster) {
    && (forall id :: id in b.subs ==> 0 < id <= b.nextId && Contiguous(b.subs[id], b.published))
    && (forall id :: id in b.subs ==> (b.subs[id].closing.None? <==> id in b.listening))
    && (forall id :: id in b.listening ==> id in b.subs)
    && (b.closed ==> b.listening == {})
  }

  lemma LaterContiguous(s: Subscription, published: seq<Chunk>, chunk: Chunk)
    requires Contiguous(s, published) && s.closing.Some?
    ensures Contiguous(s, published + [chunk])
  {
    var at := s.closing.value.at;
    assert (published + [chunk])[s.from..at] == published[s.from..at];
  }

  lemma DeliverContiguous(s: Subscription, published: seq<Chunk>, chunk: Chunk)
    requires Contiguous(s, published) && s.closing.None?
    ensures Contiguous(Deliver(s, chunk, |published|), published + [chunk])
    ensures Deliver(s, chunk, |published|).closing.Some? <==> |s.queue| >= QUEUE
  {
    var longer := published + [chunk];
    assert longer[s.from..|published|] == published[s.from..|published|] == published[s.from..];
    if |s.queue| < QUEUE {
      assert longer[s.from..|longer|] == published[s.from..] + [chunk];
      assert s.taken + (s.queue + [chunk]) == (s.taken + s.queue) + [chunk];
    } else {
      assert longer[|published|] == chunk;
    }
  }

  lemma PublishKeeps(b: Broadcaster, chunk: Chunk)
    requires Inv(b)
    ensures Inv(Publish(b, chunk))
  {
    hide Contiguous;
    hide Deliver;
    var b' := Publish(b, chunk);
    if chunk != [] && !b.closed {
      forall id | id in b'.subs
        ensures Contiguous(b'.subs[id], b'.published) && (b'.subs[id].closing.None? <==> id in b'.listening)
      {
        if id in b.listening {
          DeliverContiguous(b.subs[id], b.published, chunk);
        } else {
          LaterContiguous(b.subs[id], b.published, chunk);
        }
      }
    }
  }

  lemma CloseContiguous(s: Subscription, published: seq<Chunk>, why: Ending)
    requires Contiguous(s, published) && why != Overflow
    ensures Contiguous(Close(s, why, 0, |published|), published) && Close(s, why, 0, |published|).closing.Some?
  {
  }

  lemma ReceiveContiguous(s: Subscription, published: seq<Chunk>)
    requires Contiguous(s, published) && s.queue != []
    ensures Contiguous(s.(taken := s.taken + [s.queue[0]], queue := s.queue[1..]), published)
  {
    assert (s.taken + [s.queue[0]]) + s.queue[1..] == s.taken + s.queue;
  }

  lemma NextKeeps(b: Broadcaster, step: Step)
    requires Inv(b)
    ensures Inv(Next(b, step))
  {
    hide Contiguous;
    match step
    case DoSubscribe =>
      var s := Subscription(|b.published|, [], [], None);
      NewContiguous(b.published);
      CloseContiguous(s, b.published, Ended(b.exitCode));
    case DoPublish(chunk) => PublishKeeps(b, chunk);
    case DoUnsubscribe(id) =>
      if id in b.listening { CloseContiguous(b.subs[id], b.published, Cancelled); }
    case DoClose(exitCode) =>
      forall id | id in b.listening ensures Contiguous(Close(b.subs[id], Ended(exitCode), 0, |b.published|), b.published) {
        CloseContiguous(b.subs[id], b.published, Ended(exitCode));
      }
    case DoReceive(id) =>
      if id in b.subs && b.subs[id].queue != [] { ReceiveContiguous(b.subs[id], b.published); }
  }

  lemma NewContiguous(published: seq<Chunk>)
    ensures Contiguous(Subscription(|published|, [], [], None), published)
  {
  }

  lemma {:induction false} RunKeeps(b: Broadcaster, steps: seq<Step>)
    requires Inv(b)
    ensures Inv(Run(b, steps))
    decreases |steps|
  {
    hide Inv;
    hide Next;
    if steps != [] {
      NextKeeps(b, steps[0]);
      RunKeeps(Next(b, steps[0]), steps[1..]);
    }
  }

  /** In every run every subscriber holds a contiguous run of the chunks published since it subscribed. */
  lemma FanoutContiguous(steps: seq<Step>, id: nat)
    requires id in Run(FRESH, steps).subs
    ensures var b := Run(FRESH, steps); Contiguous(b.subs[id], b.published)
  {
    hide Run;
    RunKeeps(FRESH, steps);
  }

  /** Once a stream ended nothing is added to it: what its client can still take is what it has. */
  lemma EndedStays(b: Broadcaster, step: Step, id: nat)
    requires Inv(b) && id in b.subs && b.subs[id].closing.Some?
    ensures id in Next(b, step).subs && Next(b, step).subs[id].closing == b.subs[id].closing
    ensures Next(b, step).subs[id].taken + Next(b, step).subs[id].queue == b.subs[id].taken + b.subs[id].queue
  {
    hide Contiguous;
    if step.DoReceive? && step.id == id && b.subs[id].queue != [] {
      var s := b.subs[id];
      assert (s.taken + [s.queue[0]]) + s.queue[1..] == s.taken + s.queue;
    }
  }

  /** What a publish does to one subscriber does not depend on the others. */
  lemma OthersUnaffected(b: Broadcaster, b': Broadcaster, chunk: Chunk, id: nat)
    requires Inv(b) && Inv(b') && id in b.subs && id in b'.subs && b.subs[id] == b'.subs[id]
    requires b.published == b'.published && b.closed == b'.closed
    ensures Publish(b, chunk).subs[id] == Publish(b', chunk).subs[id]
    ensures id in Publish(b, chunk).listening <==> id in Publish(b', chunk).listening
  {
    hide Contiguous;
  }

  // ------------------------------------------------------------------ what a publish does

  /** What a listener has after one more chunk: the chunk last in its queue, or its stream ended there. */
  ghost predicate Served(s: Subscription, s': Subscription, chunk: Chunk, at: nat) {
    if |s.queue| < 16
    then s'.closing.None? && s'.queue == s.queue + [chunk] && s'.taken == s.taken && s'.from == s.from
    else s'.closing == Some(Closing(Overflow, |chunk|, at)) && s'.queue == s.queue && s'.taken == s.taken && s'.from == s.from
  }

  /** A chunk published on an open broadcaster is the next of the stream and reaches every listener. */
  lemma PublishReaches(b: Broadcaster, chunk: Chunk)
    requires Inv(b)
    ensures var b' := Publish(b, chunk);
            if b.closed || chunk == [] then b' == b
            else && b'.published == b.published + [chunk]
                 && b'.subs.Keys == b.subs.Keys
                 && (forall id :: id in b.listening ==> Served(b.subs[id], b'.subs[id], chunk, |b.published|))
                 && (forall id :: id in b.subs && id !in b.listening ==> b'.subs[id] == b.subs[id])
                 && (forall id :: id in b'.listening <==> id in b.listening && |b.subs[id].queue| < 16)
  {
    hide Contiguous;
  }

  /** What is published, from the steps alone: the chunks that are not empty, up to the first close. */
  function Broadcast(steps: seq<Step>): seq<Chunk> {
    if steps == [] then []
    else
      var last := steps[|steps| - 1];
      Broadcast(steps[..|steps| - 1])
      + if last.DoPublish? && last.chunk != [] && Closure(steps[..|steps| - 1]).None? then [last.chunk] else []
  }

  /** The exit code of the first close among the steps, if there is one. */
  function Closure(steps: seq<Step>): Option<Option<int>> {
    if steps == [] then None
    else
      var before := Closure(steps[..|steps| - 1]);
      if before.None? && steps[|steps| - 1].DoClose? then Some(steps[|steps| - 1].exitCode) else before
  }

  function Subscribed(steps: seq<Step>): nat {
    if steps == [] then 0
    else Subscribed(steps[..|steps| - 1]) + if steps[|steps| - 1].DoSubscribe? then 1 else 0
  }

  /** What one step means to one subscriber, `count` subscribed before it, at place `at` of the stream. */
  function Hears(s: Option<Subscription>, step: Step, id: nat, count: nat, at: nat, closure: Option<Option<int>>): Option<Subscription> {
    match step
    case DoSubscribe =>
      if count + 1 != id then s
      else if closure.Some? then Some(Subscription(at, [], [], Some(Closing(Ended(closure.value), 0, at))))
      else Some(Subscription(at, [], [], None))
    case DoPublish(chunk) =>
      if s.None? || s.value.closing.Some? || chunk == [] then s
      else if |s.value.queue| < 16 then Some(s.value.(queue := s.value.queue + [chunk]))
      else Some(s.value.(closing := Some(Closing(Overflow, |chunk|, at))))
    case DoUnsubscribe(other) =>
      if other != id || s.None? || s.value.closing.Some? then s
      else Some(s.value.(closing := Some(Closing(Cancelled, 0, at))))
    case DoClose(exitCode) =>
      if s.None? || s.value.closing.Some? then s
      else Some(s.value.(closing := Some(Closing(Ended(exitCode), 0, at))))
    case DoReceive(other) =>
      if other != id || s.None? || s.value.queue == [] then s
      else Some(s.value.(taken := s.value.taken + [s.value.queue[0]], queue := s.value.queue[1..]))
  }

  /** One subscriber by itself: what the steps make of it, whoever else listens. */
  function Alone(steps: seq<Step>, id: nat): Option<Subscription> {
    if steps == [] then None
    else
      var init := steps[..|steps| - 1];
      Hears(Alone(init, id), steps[|steps| - 1], id, Subscribed(init), |Broadcast(init)|, Closure(init))
  }

  ghost predicate Agrees(b: Broadcaster, steps: seq<Step>, id: nat) {
    && b.nextId == Subscribed(steps) && b.published == Broadcast(steps)
    && b.closed == Closure(steps).Some? && (b.closed ==> Some(b.exitCode) == Closure(steps))
    && Alone(steps, id) == Sub(b, id)
  }

  function Sub(b: Broadcaster, id: nat): Option<Subscription> {
    if id in b.subs then Some(b.subs[id]) else None
  }

  lemma {:induction false} RunSnoc(b: Broadcaster, steps: seq<Step>, step: Step)
    ensures Run(b, steps + [step]) == Next(Run(b, steps), step)
    decreases |steps|
  {
    hide Next;
    if steps == [] {
      assert steps + [step] == [step] && [step][1..] == [];
      assert Run(b, [step]) == Run(Next(b, step), [step][1..]);
    } else {
      assert (steps + [step])[1..] == steps[1..] + [step];
      RunSnoc(Next(b, steps[0]), steps[1..], step);
    }
  }

  /** The broadcaster treats a subscriber as it would alone. */
  lemma TreatsAlone(b: Broadcaster, step: Step, id: nat)
    requires Inv(b) && id > 0
    ensures Sub(Next(b, step), id)
            == Hears(Sub(b, id), step, id, b.nextId, |b.published|, if b.closed then Some(b.exitCode) else None)
  {
    hide Contiguous;
    Unissued(b);
    match step
    case DoSubscribe =>
    case DoPublish(chunk) => PublishReaches(b, chunk); hide Publish;
    case DoUnsubscribe(other) =>
    case DoClose(exitCode) =>
    case DoReceive(other) =>
  }

  /** Counts and stream, one step on. */
  lemma HeadNext(b: Broadcaster, step: Step)
    ensures var b' := Next(b, step);
            && b'.nextId == b.nextId + (if step.DoSubscribe? then 1 else 0)
            && b'.published == b.published + (if step.DoPublish? && step.chunk != [] && !b.closed then [step.chunk] else [])
            && (b'.closed <==> b.closed || step.DoClose?)
            && (b'.closed ==> b'.exitCode == if b.closed then b.exitCode else step.exitCode)
  {
    hide DeliverAll;
    hide NotFull;
    hide CloseEach;
  }

  lemma StepsNext(steps: seq<Step>, step: Step, id: nat)
    ensures var all := steps + [step];
            && Subscribed(all) == Subscribed(steps) + (if step.DoSubscribe? then 1 else 0)
            && Broadcast(all) == Broadcast(steps)
                                 + (if step.DoPublish? && step.chunk != [] && Closure(steps).None? then [step.chunk] else [])
            && Closure(all) == (if Closure(steps).None? && step.DoClose? then Some(step.exitCode) else Closure(steps))
            && Alone(all, id) == Hears(Alone(steps, id), step, id, Subscribed(steps), |Broadcast(steps)|, Closure(steps))
  {
    hide Hears;
    var all := steps + [step];
    assert all[..|all| - 1] == steps && all[|all| - 1] == step;
  }

  lemma AgreesNext(b: Broadcaster, steps: seq<Step>, step: Step, id: nat)
    requires Inv(b) && Agrees(b, steps, id) && id > 0
    ensures Agrees(Next(b, step), steps + [step], id)
  {
    hide Hears;
    hide Sub;
    hide Inv;
    hide Next;
    hide Alone;
    hide Broadcast;
    hide Closure;
    hide Subscribed;
    TreatsAlone(b, step, id);
    HeadNext(b, step);
    StepsNext(steps, step, id);
  }

  /** In every run every subscriber has exactly what the steps give it by itself, and the stream is what was published. */
  lemma {:induction false} EachAlone(steps: seq<Step>, id: nat)
    requires id > 0
    ensures Agrees(Run(FRESH, steps), steps, id)
  {
    if steps != [] {
      var init, last := steps[..|steps| - 1], steps[|steps| - 1];
      assert steps == init + [last];
      hide Run;
      hide Next;
      hide Inv;
      hide Agrees;
      EachAlone(init, id);
      RunKeeps(FRESH, init);
      RunSnoc(FRESH, init, last);
      AgreesNext(Run(FRESH, init), init, last, id);
    }
  }

  lemma Listeners(b: Broadcaster)
    requires Inv(b)
    ensures b.listening <= b.subs.Keys
  {
    hide Contiguous;
  }

  lemma Unissued(b: Broadcaster)
    requires Inv(b)
    ensures b.nextId + 1 !in b.subs
  {
    hide Contiguous;
  }

  // ------------------------------------------------------------------ the object

  class RawPtyBroadcaster {
    var nextId: nat
    var subs: map<nat, Subscription>
    var listening: set<nat>
    var closed: bool
    var exitCode: Option<int>
    /** Bookkeeping: no branch reads it. */
    var published: seq<Chunk>

    ghost function View(): Broadcaster
      reads this
    {
      Broadcaster(nextId, subs, listening, closed, exitCode, published)
    }

    constructor ()
      ensures View() == FRESH && Inv(View())
    {
      nextId, subs, listening, closed, exitCode, published := 0, map[], {}, false, None, [];
    }

    /** subscribe: on a closed broadcaster the new stream ends at once. */
    method AddSubscriber() returns (id: nat)
      requires Inv(View())
      modifies this
      ensures View() == Subscribe(old(View())) && Inv(View())
      ensures id == nextId && id !in old(subs) && id in subs
    {
      Unissued(View());
      hide Inv;
      NextKeeps(View(), DoSubscribe);
      nextId := nextId + 1;
      id := nextId;
      var s := Subscription(|published|, [], [], None);
      if closed {
        s := EndStream(s, Ended(exitCode), 0, |published|);
      } else {
        listening := listening + {id};
      }
      subs := subs[id := s];
    }

    /** unsubscribe */
    method RemoveSubscriber(id: nat)
      requires Inv(View())
      modifies this
      ensures View() == Unsubscribe(old(View()), id) && Inv(View())
    {
      Listeners(View());
      hide Inv;
      NextKeeps(View(), DoUnsubscribe(id));
      if id !in listening {
        return;
      }
      listening := listening - {id};
      var ended := EndStream(subs[id], Cancelled, 0, |published|);
      subs := subs[id := ended];
    }

    /** A client takes the next chunk of its queue. */
    method TakeChunk(id: nat) returns (chunk: Option<Chunk>)
      requires Inv(View())
      modifies this
      ensures View() == Receive(old(View()), id) && Inv(View())
      ensures chunk == (if id in old(subs) && old(subs)[id].queue != [] then Some(old(subs)[id].queue[0]) else None)
    {
      hide Inv;
      NextKeeps(View(), DoReceive(id));
      if id !in subs || subs[id].queue == [] {
        return None;
      }
      var s := subs[id];
      chunk := Some(s.queue[0]);
      subs := subs[id := s.(taken := s.taken + [s.queue[0]], queue := s.queue[1..])];
    }

    /** Each listening subscriber in turn, in the order of the table. */
    method DeliverEach(chunk: Chunk, at: nat) returns (after: map<nat, Subscription>, still: set<nat>)
      requires listening <= subs.Keys
      ensures after == DeliverAll(subs, listening, chunk, at) && still == NotFull(subs, listening)
    {
      after, still := subs, listening;
      var left := listening;
      while left != {}
        invariant left <= listening && after.Keys == subs.Keys
        invariant forall id :: id in subs ==>
                    after[id] == if id in listening && id !in left then Deliver(subs[id], chunk, at) else subs[id]
        invariant forall id :: id in still <==> id in listening && (id in left || |subs[id].queue| < QUEUE)
        decreases |left|
      {
        var id :| id in left;
        var s := after[id];
        if |s.queue| < QUEUE {
          after := after[id := s.(queue := s.queue + [chunk])];
        } else {
          still := still - {id};
          var ended := EndStream(s, Overflow, |chunk|, at);
          after := after[id := ended];
        }
        left := left - {id};
      }
    }

    /** publish */
    method PublishChunk(chunk: Chunk)
      requires Inv(View())
      modifies this
      ensures View() == Publish(old(View()), chunk) && Inv(View())
      ensures published == if old(closed) || chunk == [] then old(published) else old(published) + [chunk]
      ensures !old(closed) && chunk != [] ==> forall id :: id in old(listening) && id in old(subs) ==>
                id in subs && Served(old(subs)[id], subs[id], chunk, |old(published)|)
    {
      PublishReaches(View(), chunk);
      hide Served;
      hide Inv;
      hide DeliverAll;
      hide NotFull;
      PublishKeeps(View(), chunk);
      Listeners(View());
      if chunk == [] || closed {
        return;
      }
      var after, still := DeliverEach(chunk, |published|);
      subs, listening := after, still;
      published := published + [chunk];
    }

    method EndStream(s: Subscription, why: Ending, dropped: nat, at: nat) returns (r: Subscription)
      ensures r == Close(s, why, dropped, at)
    {
      if s.closing.Some? {
        return s;
      }
      r := s.(closing := Some(Closing(why, dropped, at)));
    }

    method EndEach(why: Ending, at: nat) returns (after: map<nat, Subscription>)
      requires listening <= subs.Keys
      ensures after == CloseEach(subs, listening, why, at)
    {
      after := subs;
      var left := listening;
      while left != {}
        invariant left <= listening && after.Keys == subs.Keys
        invariant forall id :: id in subs ==>
                    after[id] == if id in listening && id !in left then Close(subs[id], why, 0, at) else subs[id]
        decreases |left|
      {
        var id :| id in left;
        var ended := EndStream(after[id], why, 0, at);
        after := after[id := ended];
        left := left - {id};
      }
    }

    /** close */
    method CloseBroadcaster(code: Option<int>)
      requires Inv(View())
      modifies this
      ensures View() == CloseAll(old(View()), code) && Inv(View())
    {
      hide Inv;
      hide CloseEach;
      NextKeeps(View(), DoClose(code));
      Listeners(View());
      if closed {
        return;
      }
      var after := EndEach(Ended(code), |published|);
      closed, exitCode, listening, subs := true, code, {}, after;
    }
  }
}
