/**
 Any number of output buffers under one daemon-wide byte budget.

 Reserving, appending and releasing are separate steps: between them a chunk is reserved and
 not listed yet, or bytes are freed and not given back yet. Any thread may evict from any
 drop-policy buffer at any time, so every interleaving of the buffers' sections is a run.
 */
module OutputBudget {
  import opened OutputModel
  import opened OutputProofs
  import opened OutputRuns
  import opened OutputReleases
  import OutputLemmas

  /** A buffer, and whether its writer's chunk is already reserved in the budget. */
  datatype Member = Member(w: World, reserved: bool)
  {
    function ReservedBytes(): nat {
      if reserved && w.writer.Some? then |w.writer.value| else 0
    }
  }

  /** `debts` are amounts freed by some thread that it has not released yet. */
  datatype System = System(maxBytes: nat, resident: int, closed: bool, members: seq<Member>, debts: seq<nat>)

  datatype Move =
    | Register(capacity: nat, policy: Policy, historyEnabled: bool)
    | Local(i: nat, action: Action)
    | Reserve(i: nat)
    | Release(k: nat)
    | CloseBudget

  /** Committing needs the reservation, abandoning needs that it failed. */
  predicate Allowed(m: Member, a: Action) {
    && (a.Commit? ==> m.reserved)
    && (a.Abandon? ==> !m.reserved)
  }

  function EmptySystem(maxBytes: nat): System {
    System(maxBytes, 0, false, [], [])
  }

  function Moved(s: System, move: Move): System {
    match move
    case Register(capacity, policy, historyEnabled) =>
      s.(members := s.members + [Member(Initial(capacity, policy, historyEnabled), false)])
    case Local(i, a) =>
      if i < |s.members| && Allowed(s.members[i], a) then
        var m := s.members[i];
        var w' := Step(m.w, a);
        var m' := Member(w', m.reserved && w'.writer.Some?);
        var freed := Released(m.w, a);
        s.(members := s.members[i := m'], debts := if freed > 0 then s.debts + [freed] else s.debts)
      else s
    case Reserve(i) =>
      if i < |s.members| && s.members[i].w.writer.Some? && !s.members[i].reserved && !s.closed
         && s.resident + |s.members[i].w.writer.value| <= s.maxBytes
      then s.(members := s.members[i := s.members[i].(reserved := true)],
              resident := s.resident + |s.members[i].w.writer.value|)
      else s
    case Release(k) =>
      if k < |s.debts| then
        s.(resident := if s.resident - s.debts[k] < 0 then 0 else s.resident - s.debts[k],
           debts := s.debts[..k] + s.debts[k + 1..])
      else s
    case CloseBudget => s.(closed := true)
  }

  function Moves(s: System, moves: seq<Move>): System
    decreases |moves|
  {
    if moves == [] then s else Moves(Moved(s, moves[0]), moves[1..])
  }

  // ------------------------------------------------------------------ sums

  function Held(m: Member): int {
    m.w.b.resident + m.ReservedBytes()
  }

  function HeldAll(members: seq<Member>): int {
    if members == [] then 0 else HeldAll(members[..|members| - 1]) + Held(members[|members| - 1])
  }

  function Owed(debts: seq<nat>): nat {
    if debts == [] then 0 else Owed(debts[..|debts| - 1]) + debts[|debts| - 1]
  }

  lemma {:induction false} HeldUpdate(members: seq<Member>, i: nat, m: Member)
    requires i < |members|
    ensures HeldAll(members[i := m]) == HeldAll(members) - Held(members[i]) + Held(m)
  {
    hide Held;
    var last := |members| - 1;
    if i == last {
      assert members[i := m][..last] == members[..last];
    } else {
      assert members[i := m][..last] == members[..last][i := m];
      HeldUpdate(members[..last], i, m);
    }
  }

  lemma {:induction false} OwedConcat(a: seq<nat>, b: seq<nat>)
    ensures Owed(a + b) == Owed(a) + Owed(b)
  {
    if b == [] {
      assert a + b == a;
    } else {
      assert (a + b)[..|a + b| - 1] == a + b[..|b| - 1];
      OwedConcat(a, b[..|b| - 1]);
    }
  }

  lemma OwedSingle(debt: nat)
    ensures Owed([debt]) == debt
  {
    assert [debt][..0] == [];
  }

  lemma OwedRemove(debts: seq<nat>, k: nat)
    requires k < |debts|
    ensures Owed(debts[..k] + debts[k + 1..]) == Owed(debts) - debts[k]
  {
    hide Owed;
    var front, back := debts[..k], debts[k + 1..];
    assert debts == front + ([debts[k]] + back);
    OwedConcat(front, [debts[k]] + back);
    OwedConcat([debts[k]], back);
    OwedConcat(front, back);
    OwedSingle(debts[k]);
  }

  lemma {:induction false} HeldNonNegative(members: seq<Member>)
    requires forall i :: 0 <= i < |members| ==> Held(members[i]) >= 0
    ensures HeldAll(members) >= 0
  {
    if members != [] { HeldNonNegative(members[..|members| - 1]); }
  }

  // ------------------------------------------------------------------ the invariant

  ghost predicate SystemInv(s: System) {
    && (forall i :: 0 <= i < |s.members| ==>
          Inv(s.members[i].w) && (s.members[i].reserved ==> s.members[i].w.writer.Some?))
    && s.resident == HeldAll(s.members) + Owed(s.debts)
    && s.resident <= s.maxBytes
  }

  lemma ResidentIsBytes(w: World)
    requires Inv(w)
    ensures w.b.resident == NodeBytes(w.b.nodes) >= 0
  {
    hide ConsumerInv;
  }

  /** What a section releases is exactly what its buffer and its writer's reservation no longer hold. */
  lemma StepReleases(m: Member, a: Action)
    requires Inv(m.w) && (m.reserved ==> m.w.writer.Some?) && Allowed(m, a)
    ensures var w' := Step(m.w, a);
            Held(m) - Held(Member(w', m.reserved && w'.writer.Some?)) == Released(m.w, a)
  {
    hide Inv;
    ReleasedIsExact(m.w, a);
    WriterMoves(m.w, a);
    hide Step;
    hide Released;
  }

  /** Only a commit or an abandon ends a writer's turn, and nothing changes its chunk. */
  lemma WriterMoves(w: World, a: Action)
    ensures a.Commit? || a.Abandon? ==> Step(w, a).writer.None?
    ensures w.writer.Some? && !a.Commit? && !a.Abandon? ==> Step(w, a).writer == w.writer
  {
    hide DropOldest;
    hide DropIncoming;
    hide Append;
    hide Close;
    hide CompleteBatch;
    hide CompleteGap;
    hide Fetch;
    hide FetchState;
  }

  /** Every step of every thread keeps the budget's account, and it never goes over its limit. */
  lemma MoveKeeps(s: System, move: Move)
    requires SystemInv(s)
    ensures SystemInv(Moved(s, move))
  {
    hide Inv;
    hide Step;
    hide Released;
    hide HeldAll;
    hide Owed;
    match move
    case Register(capacity, policy, historyEnabled) =>
      InitialInv(capacity, policy, historyEnabled);
      JoinHeld(s.members, Member(Initial(capacity, policy, historyEnabled), false));
    case Local(i, a) =>
      if i < |s.members| && Allowed(s.members[i], a) {
        var m := s.members[i];
        StepKeeps(m.w, a);
        StepReleases(m, a);
        var m' := Moved(s, move).members[i];
        HeldUpdate(s.members, i, m');
        OwedOne(s.debts, Held(m) - Held(m'));
      }
    case Reserve(i) =>
      if i < |s.members| { HeldUpdate(s.members, i, s.members[i].(reserved := true)); }
    case Release(k) =>
      if k < |s.debts| {
        ReleaseCovered(s, k);
        OwedRemove(s.debts, k);
      }
    case CloseBudget =>
  }

  lemma JoinHeld(members: seq<Member>, m: Member)
    ensures HeldAll(members + [m]) == HeldAll(members) + Held(m)
  {
    assert (members + [m])[..|members|] == members;
  }

  lemma OwedOne(debts: seq<nat>, more: nat)
    ensures Owed(debts + [more]) == Owed(debts) + more
  {
    assert (debts + [more])[..|debts|] == debts;
  }

  /** The clamp at zero in release never fires: the budget holds at least what is owed to it. */
  lemma ReleaseCovered(s: System, k: nat)
    requires SystemInv(s) && k < |s.debts|
    ensures s.resident - s.debts[k] >= 0
  {
    hide Inv;
    forall i | 0 <= i < |s.members| ensures Held(s.members[i]) >= 0 {
      ResidentIsBytes(s.members[i].w);
    }
    HeldNonNegative(s.members);
    OwedRemove(s.debts, k);
  }

  lemma {:induction false} MovesKeep(s: System, moves: seq<Move>)
    requires SystemInv(s)
    ensures SystemInv(Moves(s, moves))
    decreases |moves|
  {
    hide SystemInv;
    hide Moved;
    if moves != [] {
      MoveKeeps(s, moves[0]);
      MovesKeep(Moved(s, moves[0]), moves[1..]);
    }
  }

  function Resident(members: seq<Member>): nat {
    if members == [] then 0
    else Resident(members[..|members| - 1]) + NodeBytes(members[|members| - 1].w.b.nodes)
  }

  function Reserved(members: seq<Member>): nat {
    if members == [] then 0 else Reserved(members[..|members| - 1]) + members[|members| - 1].ReservedBytes()
  }

  lemma {:induction false} HeldSplits(members: seq<Member>)
    requires forall i :: 0 <= i < |members| ==> Inv(members[i].w)
    ensures HeldAll(members) == Resident(members) + Reserved(members)
  {
    hide Inv;
    if members != [] {
      ResidentIsBytes(members[|members| - 1].w);
      HeldSplits(members[..|members| - 1]);
    }
  }

  /**
   After any run over any number of buffers the budget's counter is exactly the bytes listed
   in all buffers, plus the bytes reserved and not appended, plus the bytes freed and not
   released; it never exceeds the limit, and each buffer stays within its own capacity.
   */
  lemma BudgetExact(maxBytes: nat, moves: seq<Move>)
    ensures var s := Moves(EmptySystem(maxBytes), moves);
            && s.resident == Resident(s.members) + Reserved(s.members) + Owed(s.debts)
            && s.resident <= s.maxBytes
            && (forall i :: 0 <= i < |s.members| ==>
                  NodeBytes(s.members[i].w.b.nodes) <= s.members[i].w.b.capacity)
            && (forall k :: 0 <= k < |s.debts| ==> s.debts[k] <= s.resident)
  {
    hide Inv;
    hide Moves;
    var s := Moves(EmptySystem(maxBytes), moves);
    assert SystemInv(EmptySystem(maxBytes));
    MovesKeep(EmptySystem(maxBytes), moves);
    HeldSplits(s.members);
    forall i | 0 <= i < |s.members| ensures NodeBytes(s.members[i].w.b.nodes) <= s.members[i].w.b.capacity {
      Within(s.members[i].w);
    }
    forall k | 0 <= k < |s.debts| ensures s.debts[k] <= s.resident { ReleaseCovered(s, k); }
  }

  lemma Within(w: World)
    requires Inv(w)
    ensures NodeBytes(w.b.nodes) <= w.b.capacity
  {
    hide ConsumerInv;
  }

  // ------------------------------------------------------------------ the budget's own object

  class ResidentBudget {
    const maxBytes: nat
    var resident: int
    var closed: bool
    /** The buffers that share the budget, and the bytes freed that are still to be released. */
    ghost var members: seq<Member>
    ghost var debts: seq<nat>

    ghost function View(): System
      reads this
    {
      System(maxBytes, resident, closed, members, debts)
    }

    constructor (maxBytes: nat)
      ensures View() == EmptySystem(maxBytes) && SystemInv(View())
    {
      this.maxBytes := maxBytes;
      resident, closed, members, debts := 0, false, [], [];
    }

    /** A new buffer joins the budget; the counter does not change. */
    method RegisterBuffer(capacity: nat, policy: Policy, historyEnabled: bool)
      requires SystemInv(View())
      modifies this
      ensures View() == Moved(old(View()), Register(capacity, policy, historyEnabled)) && SystemInv(View())
    {
      hide SystemInv;
      MoveKeeps(View(), Register(capacity, policy, historyEnabled));
      members := members + [Member(Initial(capacity, policy, historyEnabled), false)];
    }

    /** A section of member i, in the buffer's own lock: what it frees is owed to the budget from here on. */
    ghost method Section(i: nat, a: Action)
      requires SystemInv(View()) && i < |members| && Allowed(members[i], a)
      modifies this`members, this`debts
      ensures View() == Moved(old(View()), Local(i, a)) && SystemInv(View())
      ensures |members| == |old(members)| && members[i].w == Step(old(members)[i].w, a)
      ensures debts == if Released(old(members)[i].w, a) > 0 then old(debts) + [Released(old(members)[i].w, a)] else old(debts)
    {
      hide SystemInv;
      hide Step;
      hide Released;
      MoveKeeps(View(), Local(i, a));
      var s := Moved(View(), Local(i, a));
      members, debts := s.members, s.debts;
    }

    /** close */
    method CloseForGood()
      requires SystemInv(View())
      modifies this
      ensures View() == Moved(old(View()), CloseBudget) && SystemInv(View())
    {
      hide SystemInv;
      MoveKeeps(View(), CloseBudget);
      closed := true;
    }

    /** One attempt of reserve for the chunk of member i. */
    method TryReserve(ghost i: nat, bytes: nat) returns (ok: bool)
      requires SystemInv(View()) && i < |members| && !members[i].reserved
      requires members[i].w.writer.Some? && |members[i].w.writer.value| == bytes
      modifies this
      ensures View() == Moved(old(View()), Reserve(i)) && SystemInv(View())
      ensures ok <==> !old(closed) && old(resident) + bytes <= maxBytes
      ensures if ok then resident == old(resident) + bytes && i < |members| && members[i] == old(members)[i].(reserved := true)
              else View() == old(View())
    {
      hide SystemInv;
      MoveKeeps(View(), Reserve(i));
      ok := !closed && resident + bytes <= maxBytes;
      if ok {
        resident := resident + bytes;
        members := members[i := members[i].(reserved := true)];
      }
    }

    /** release of an amount some section freed; the counter never has to be clamped. */
    method ReleaseBytes(ghost k: nat, bytes: nat)
      requires SystemInv(View()) && k < |debts| && debts[k] == bytes
      modifies this
      ensures View() == Moved(old(View()), Release(k)) && SystemInv(View())
      ensures resident == old(resident) - bytes >= 0
    {
      hide SystemInv;
      MoveKeeps(View(), Release(k));
      ReleaseCovered(View(), k);
      var left := resident - bytes;
      resident := if left < 0 then 0 else left;
      debts := debts[..k] + debts[k + 1..];
    }
  }
}
