/** The bounded multi-producer multi-consumer queue of src/concurrent/concurrent_bounded_queue.h, as a state
    machine over its atomic steps.

    A thread that calls `push` or `pop` draws a ticket with one fetch_add and from then on is identified by it:
    `pushes[i]` and `pops[i]` are the operations that drew ticket `i`, each with its own program counter. Each slot
    has a 32-bit futex word: a 16-bit version that wraps, plus a tag above bit 15 when somebody waits. */
module BoundedQueue {
  import opened Bits
  import opened Counting
  import opened Runs

  /** Where an operation stands inside `process`. */
  datatype Pc =
    | Wait                // about to load the futex word
    | Mark(seen: nat)     // saw the untagged word `seen`, of a version it does not want; about to tag it with a CAS
    | Sleep(seen: nat)    // about to call futex wait with `seen`
    | Asleep(seen: nat)   // inside futex wait, sleeping on `seen`
    | Callback            // saw the version it wants; about to run the callback on the slot
    | Advance             // about to exchange in the next version
    | Wake                // the exchange returned a tagged word; about to wake all sleepers of the slot
    | Done

  /** The value an operation writes (push) or has received (pop). */
  datatype Op = Op(value: int, pc: Pc)

  datatype Id = Push(ticket: nat) | Pop(ticket: nat)

  datatype State = State(
    bits: nat,            // _round_bits: the capacity is Pow2(bits)
    values: seq<int>,     // one value per slot
    words: seq<nat>,      // one futex word per slot
    pushes: seq<Op>,      // _next_push_index is |pushes|
    pops: seq<Op>,        // _next_pop_index is |pops|
    version: seq<nat>)    // history: how often each slot was advanced, without wrapping

  const IN_FLIGHT: nat := 0x8000   // how many pushes (and how many pops) may be in flight on one slot

  /** `get_raw_version`: the low 16 bits */
  function Raw(word: nat): nat { word % 0x1_0000 }

  /** `make_tagged_version` */
  function MakeTagged(word: nat): nat { word + 0x1_0000 }

  /** `is_tagged_version` */
  predicate Tagged(word: nat) { word > 0xFFFF }

  /** `slot_id = index & (_capacity - 1)` */
  function SlotOf(bits: nat, ticket: nat): (j: nat)
    ensures j < Pow2(bits)
  {
    MaskIsMod(ticket, bits);
    BitAnd(ticket, Pow2(bits) - 1)
  }

  /** `index >> _round_bits`: how often earlier tickets went round the slots */
  function RoundOf(bits: nat, ticket: nat): nat {
    ShiftRight(ticket, bits)
  }

  lemma SlotAndRound(bits: nat, ticket: nat)
    ensures SlotOf(bits, ticket) == ticket % Pow2(bits)
    ensures RoundOf(bits, ticket) == ticket / Pow2(bits)
  {
    MaskIsMod(ticket, bits);
    ShiftIsDiv(ticket, bits);
  }

  /** The 16-bit version an operation waits for: push_version_for_index and pop_version_for_index. */
  function Expected16(bits: nat, id: Id): nat {
    match id
    case Push(i) => Raw(2 * RoundOf(bits, i))
    case Pop(i) => Raw(Raw(2 * RoundOf(bits, i)) + 1)
  }

  /** The same version before truncation. */
  function Expected(bits: nat, id: Id): (e: nat)
    ensures Raw(e) == Expected16(bits, id)
  {
    match id
    case Push(i) => 2 * RoundOf(bits, i)
    case Pop(i) => 2 * RoundOf(bits, i) + 1
  }

  predicate Has(s: State, id: Id) {
    if id.Push? then id.ticket < |s.pushes| else id.ticket < |s.pops|
  }

  function Get(s: State, id: Id): Op
    requires Has(s, id)
  {
    if id.Push? then s.pushes[id.ticket] else s.pops[id.ticket]
  }

  function Set(s: State, id: Id, op: Op): State
    requires Has(s, id)
  {
    if id.Push? then s.(pushes := s.pushes[id.ticket := op]) else s.(pops := s.pops[id.ticket := op])
  }

  function Slot(s: State, id: Id): nat { SlotOf(s.bits, id.ticket) }

  // ---------- Steps ----------

  datatype Step =
    | DrawPush(value: int)                      // push: fetch_add on _next_push_index
    | DrawPop                                   // pop: fetch_add on _next_pop_index
    | Act(id: Id, weak: bool, residue: int)     // the next atomic action of an operation; `weak`: a weak CAS fails
                                                // spuriously; `residue`: what a moved-from slot is left with
    | Interrupt(id: Id)                         // a futex wait returns by itself

  function WakeAll(bits: nat, ops: seq<Op>, j: nat): seq<Op> {
    seq(|ops|, i requires 0 <= i < |ops| =>
      if SlotOf(bits, i) == j && ops[i].pc.Asleep? then ops[i].(pc := Wait) else ops[i])
  }

  predicate Shape(s: State) {
    && |s.values| == |s.words| == |s.version| == Pow2(s.bits)
    && forall j | 0 <= j < |s.words| :: s.words[j] < 0x2_0000
  }

  predicate Enabled(s: State, step: Step) {
    match step
    case DrawPush(_) => true
    case DrawPop => true
    case Act(id, _, _) => Has(s, id) && !Get(s, id).pc.Asleep? && !Get(s, id).pc.Done?
    case Interrupt(id) => Has(s, id) && Get(s, id).pc.Asleep?
  }

  function Next(s: State, step: Step): State
    requires Shape(s) && Enabled(s, step)
  {
    match step
    case DrawPush(v) => s.(pushes := s.pushes + [Op(v, Wait)])
    case DrawPop => s.(pops := s.pops + [Op(0, Wait)])
    case Interrupt(id) => Set(s, id, Get(s, id).(pc := Wait))
    case Act(id, weak, residue) =>
      var op, j := Get(s, id), Slot(s, id);
      var word := s.words[j];
      match op.pc
      case Wait =>
        Set(s, id, op.(pc := if Raw(word) == Expected16(s.bits, id) then Callback
                             else if Tagged(word) then Sleep(word) else Mark(word)))
      case Mark(seen) =>
        if word == seen && !weak then
          Set(s, id, op.(pc := Sleep(MakeTagged(seen)))).(words := s.words[j := MakeTagged(seen)])
        else
          Set(s, id, op.(pc := Wait))
      case Sleep(seen) =>
        Set(s, id, op.(pc := if word == seen then Asleep(seen) else Wait))
      case Callback =>
        if id.Push? then
          Set(s, id, op.(pc := Advance)).(values := s.values[j := op.value])
        else
          Set(s, id, Op(s.values[j], Advance)).(values := s.values[j := residue])
      case Advance =>
        Set(s, id, op.(pc := if Tagged(word) then Wake else Done)).(
          words := s.words[j := Raw(Expected16(s.bits, id) + 1)],
          version := s.version[j := s.version[j] + 1])
      case Wake =>
        var s' := Set(s, id, op.(pc := Done));
        s'.(pushes := WakeAll(s.bits, s'.pushes, j), pops := WakeAll(s.bits, s'.pops, j))
      case _ => s
  }

  ghost predicate Init(s: State) {
    && Shape(s)
    && s.pushes == [] && s.pops == []
    && forall j | 0 <= j < |s.words| :: s.words[j] == 0 && s.version[j] == 0
  }

  ghost predicate Moves(s: State, s': State) {
    Shape(s) && exists step :: Enabled(s, step) && s' == Next(s, step)
  }

  // ---------- How many operations may be in flight ----------

  predicate Advanced(pc: Pc) { pc.Wake? || pc.Done? }

  ghost function InFlight(bits: nat, ops: seq<Op>, j: nat): set<nat> {
    set k: nat | k < |ops| && SlotOf(bits, k) == j && !Advanced(ops[k].pc)
  }

  /** On each slot, at most 2^15 pushes and at most 2^15 pops have drawn a ticket and not yet advanced the slot. */
  ghost predicate FewInFlight(s: State) {
    forall j | 0 <= j < |s.words| ::
      |InFlight(s.bits, s.pushes, j)| <= IN_FLIGHT && |InFlight(s.bits, s.pops, j)| <= IN_FLIGHT
  }

  ghost predicate BoundedMoves(s: State, s': State) { FewInFlight(s) && Moves(s, s') }

  ghost predicate IsQueueRun(run: seq<State>) { IsRun(Init, BoundedMoves, run) }

  // ---------- The invariant ----------

  predicate Inside(pc: Pc) { pc.Callback? || pc.Advance? }

  /** The callback of the operation has run. */
  predicate Executed(pc: Pc) { pc.Advance? || Advanced(pc) }

  /** Some operation has advanced slot `j` over a tag and still owes its `wake_all`. */
  ghost predicate WakeOwed(s: State, j: nat) {
    exists id :: Has(s, id) && Slot(s, id) == j && Get(s, id).pc.Wake?
  }

  ghost predicate OpInv(s: State, id: Id)
    requires Shape(s) && Has(s, id)
  {
    var pc, j := Get(s, id).pc, Slot(s, id);
    && (Advanced(pc) <==> Expected(s.bits, id) < s.version[j])
    && (Inside(pc) ==> Expected(s.bits, id) == s.version[j])
    && (pc.Mark? ==> !Tagged(pc.seen) && pc.seen != Expected16(s.bits, id))
    && (pc.Sleep? || pc.Asleep? ==> Tagged(pc.seen) && Raw(pc.seen) != Expected16(s.bits, id))
    && (pc.Asleep? ==> s.words[j] == pc.seen || WakeOwed(s, j))
  }

  /** Every version a slot has gone through was advanced by an operation that drew the ticket for it. */
  ghost predicate Issued(s: State)
    requires Shape(s)
  {
    && (forall k: nat | Expected(s.bits, Push(k)) < s.version[SlotOf(s.bits, k)] :: k < |s.pushes|)
    && (forall k: nat | Expected(s.bits, Pop(k)) < s.version[SlotOf(s.bits, k)] :: k < |s.pops|)
  }

  predicate Written(s: State, k: nat) { k < |s.pushes| && Executed(s.pushes[k].pc) }

  predicate Read(s: State, k: nat) { k < |s.pops| && Executed(s.pops[k].pc) }

  ghost predicate ValueInv(s: State, k: nat)
    requires Shape(s)
  {
    && (Written(s, k) && !Read(s, k) ==> s.values[SlotOf(s.bits, k)] == s.pushes[k].value)
    && (Read(s, k) ==> Written(s, k) && s.pops[k].value == s.pushes[k].value)
  }

  /** The word of a slot shows the low 16 bits of how often the slot was advanced. */
  ghost predicate WordsMatch(s: State)
    requires Shape(s)
  {
    forall j | 0 <= j < |s.words| :: Raw(s.words[j]) == Raw(s.version[j])
  }

  ghost predicate Inv(s: State) {
    && Shape(s)
    && WordsMatch(s)
    && (forall id | Has(s, id) :: OpInv(s, id))
    && Issued(s)
    && (forall k: nat :: ValueInv(s, k))
  }

  // ---------- Arithmetic of tickets ----------

  /** A ticket is determined by its slot and its round. */
  lemma TicketUnique(bits: nat, i: nat, k: nat)
    ensures SlotOf(bits, i) == SlotOf(bits, k) && RoundOf(bits, i) == RoundOf(bits, k) ==> i == k
    ensures SlotOf(bits, i) == SlotOf(bits, k) && RoundOf(bits, i) <= RoundOf(bits, k) ==> i <= k
  {
    SlotAndRound(bits, i);
    SlotAndRound(bits, k);
    if SlotOf(bits, i) == SlotOf(bits, k) { DivModOrder(i, k, Pow2(bits)); }
  }

  lemma PreviousRound(bits: nat, i: nat)
    requires RoundOf(bits, i) > 0
    ensures i >= Pow2(bits)
    ensures SlotOf(bits, i - Pow2(bits)) == SlotOf(bits, i)
    ensures RoundOf(bits, i - Pow2(bits)) == RoundOf(bits, i) - 1
  {
    SlotAndRound(bits, i);
    DivModMinus(i, Pow2(bits));
    SlotAndRound(bits, i - Pow2(bits));
  }

  /** The ticket of a given slot and round. */
  lemma TicketOf(bits: nat, j: nat, round: nat)
    requires j < Pow2(bits)
    ensures var k := round * Pow2(bits) + j; SlotOf(bits, k) == j && RoundOf(bits, k) == round
  {
    var k := round * Pow2(bits) + j;
    DivModUnique(k, Pow2(bits), round, j);
    SlotAndRound(bits, k);
  }

  // ---------- A 16-bit match is a true match ----------

  ghost function InFlightOf(s: State, id: Id): set<nat> {
    InFlight(s.bits, if id.Push? then s.pushes else s.pops, Slot(s, id))
  }

  function WithTicket(id: Id, k: nat): Id { if id.Push? then Push(k) else Pop(k) }

  /** If an operation is `2 * m` versions ahead of its slot, then the `m` operations of its kind
      that go before it on that slot are in flight too. */
  lemma {:induction false} Backlog(s: State, id: Id, m: nat) returns (tickets: set<nat>)
    requires Inv(s) && Has(s, id)
    requires Expected(s.bits, id) >= s.version[Slot(s, id)] + 2 * m
    ensures |tickets| == m + 1 && tickets <= InFlightOf(s, id)
    ensures forall k | k in tickets :: k <= id.ticket
    decreases m
  {
    assert OpInv(s, id);
    tickets := {id.ticket};
    if m > 0 {
      PreviousRound(s.bits, id.ticket);
      var before := WithTicket(id, id.ticket - Pow2(s.bits));
      var rest := Backlog(s, before, m - 1);
      assert id.ticket !in rest;
      tickets := rest + {id.ticket};
    }
  }

  lemma MatchIsExact(s: State, id: Id)
    requires Inv(s) && FewInFlight(s) && Has(s, id) && !Advanced(Get(s, id).pc)
    requires Raw(s.words[Slot(s, id)]) == Expected16(s.bits, id)
    ensures s.version[Slot(s, id)] == Expected(s.bits, id)
  {
    assert OpInv(s, id);
    var e, v := Expected(s.bits, id), s.version[Slot(s, id)];
    if e != v {
      assert Raw(e) == Raw(v) && e >= v + 0x1_0000;
      var tickets := Backlog(s, id, IN_FLIGHT);
      SubsetCard(tickets, InFlightOf(s, id));
      assert false;
    }
  }

  // ---------- Each step keeps the invariant ----------

  lemma InsideIsUnique(s: State, a: Id, b: Id)
    requires Inv(s) && Has(s, a) && Has(s, b) && Slot(s, a) == Slot(s, b)
    requires Expected(s.bits, a) == Expected(s.bits, b)
    ensures a == b
  {
    TicketUnique(s.bits, a.ticket, b.ticket);
  }

  lemma WakersStay(s: State, s': State)
    requires s.bits == s'.bits
    requires forall id | Has(s, id) && Get(s, id).pc.Wake? :: Has(s', id) && Get(s', id).pc.Wake?
    ensures forall j | WakeOwed(s, j) :: WakeOwed(s', j)
  {
    forall j | WakeOwed(s, j) ensures WakeOwed(s', j) {
      var id :| Has(s, id) && Slot(s, id) == j && Get(s, id).pc.Wake?;
      assert Has(s', id) && Slot(s', id) == j && Get(s', id).pc.Wake?;
    }
  }

  lemma DrawKeepsInv(s: State, step: Step)
    requires Inv(s) && (step.DrawPush? || step.DrawPop?)
    ensures Inv(Next(s, step))
  {
    var s' := Next(s, step);
    WakersStay(s, s');
    var drawn := if step.DrawPush? then Push(|s.pushes|) else Pop(|s.pops|);
    assert Expected(s.bits, drawn) >= s.version[Slot(s, drawn)];
    forall id | Has(s', id) ensures OpInv(s', id) {
      if id != drawn { assert Has(s, id) && Get(s', id) == Get(s, id) && OpInv(s, id); }
    }
    forall k: nat ensures ValueInv(s', k) { assert ValueInv(s, k); }
  }

  /** An operation that has not run its callback may change its program counter and tag untagged words. */
  lemma MovingKeepsInv(s: State, id0: Id, pc: Pc, words: seq<nat>)
    requires Inv(s) && Has(s, id0) && !Executed(Get(s, id0).pc) && !Executed(pc)
    requires |words| == |s.words|
    requires forall j | 0 <= j < |words| :: words[j] < 0x2_0000 && Raw(words[j]) == Raw(s.words[j])
    requires forall j | 0 <= j < |words| :: words[j] == s.words[j] || !Tagged(s.words[j])
    requires pc.Callback? ==> Expected(s.bits, id0) == s.version[Slot(s, id0)]
    requires pc.Mark? ==> !Tagged(pc.seen) && pc.seen != Expected16(s.bits, id0)
    requires pc.Sleep? || pc.Asleep? ==> Tagged(pc.seen) && Raw(pc.seen) != Expected16(s.bits, id0)
    requires pc.Asleep? ==> words[Slot(s, id0)] == pc.seen
    ensures Inv(Set(s, id0, Get(s, id0).(pc := pc)).(words := words))
  {
    var s' := Set(s, id0, Get(s, id0).(pc := pc)).(words := words);
    assert OpInv(s, id0);
    WakersStay(s, s');
    forall id | Has(s', id) ensures OpInv(s', id) {
      assert OpInv(s, id);
    }
    forall k: nat ensures ValueInv(s', k) { assert ValueInv(s, k); }
  }

  /** Loading the word: a 16-bit match lets the operation into its callback, any other word makes it wait. */
  lemma LoadKeepsInv(s: State, id: Id, weak: bool, residue: int)
    requires Inv(s) && FewInFlight(s) && Has(s, id) && Get(s, id).pc.Wait?
    ensures Inv(Next(s, Act(id, weak, residue)))
  {
    var word := s.words[Slot(s, id)];
    assert OpInv(s, id);
    if Raw(word) == Expected16(s.bits, id) {
      MatchIsExact(s, id);
      MovingKeepsInv(s, id, Callback, s.words);
    } else {
      MovingKeepsInv(s, id, if Tagged(word) then Sleep(word) else Mark(word), s.words);
    }
  }

  /** Tagging the word: its raw part, and so the version it stands for, stays. */
  lemma MarkKeepsInv(s: State, id: Id, weak: bool, residue: int)
    requires Inv(s) && Has(s, id) && Get(s, id).pc.Mark?
    ensures Inv(Next(s, Act(id, weak, residue)))
  {
    var seen, j := Get(s, id).pc.seen, Slot(s, id);
    assert OpInv(s, id);
    if s.words[j] == seen && !weak {
      MovingKeepsInv(s, id, Sleep(MakeTagged(seen)), s.words[j := MakeTagged(seen)]);
    } else {
      MovingKeepsInv(s, id, Wait, s.words);
    }
  }

  /** Going to sleep, which the futex refuses when the word has changed. */
  lemma SleepKeepsInv(s: State, id: Id, weak: bool, residue: int)
    requires Inv(s) && Has(s, id) && Get(s, id).pc.Sleep?
    ensures Inv(Next(s, Act(id, weak, residue)))
  {
    var seen := Get(s, id).pc.seen;
    assert OpInv(s, id);
    MovingKeepsInv(s, id, if s.words[Slot(s, id)] == seen then Asleep(seen) else Wait, s.words);
  }

  lemma InterruptKeepsInv(s: State, id: Id)
    requires Inv(s) && Has(s, id) && Get(s, id).pc.Asleep?
    ensures Inv(Next(s, Interrupt(id)))
  {
    assert OpInv(s, id);
    MovingKeepsInv(s, id, Wait, s.words);
  }

  lemma CallbackKeepsOps(s: State, s': State, id0: Id, weak: bool, residue: int)
    requires Inv(s) && Has(s, id0) && Get(s, id0).pc.Callback? && s' == Next(s, Act(id0, weak, residue))
    ensures forall id | Has(s', id) :: OpInv(s', id)
  {
    assert OpInv(s, id0);
    WakersStay(s, s');
    forall id | Has(s', id) ensures OpInv(s', id) { assert OpInv(s, id); }
  }

  lemma CallbackKeepsValues(s: State, s': State, id0: Id, weak: bool, residue: int)
    requires Inv(s) && Has(s, id0) && Get(s, id0).pc.Callback? && s' == Next(s, Act(id0, weak, residue))
    ensures forall k: nat :: ValueInv(s', k)
  {
    assert OpInv(s, id0);
    forall k: nat ensures ValueInv(s', k) {
      assert ValueInv(s, k);
      if SlotOf(s.bits, k) == Slot(s, id0) {
        TicketUnique(s.bits, k, id0.ticket);
        if k < |s.pushes| { assert OpInv(s, Push(k)); }
        if k < |s.pops| { assert OpInv(s, Pop(k)); }
      }
    }
  }

  lemma CallbackKeepsInv(s: State, id0: Id, weak: bool, residue: int)
    requires Inv(s) && Has(s, id0) && Get(s, id0).pc.Callback?
    ensures Inv(Next(s, Act(id0, weak, residue)))
  {
    var s' := Next(s, Act(id0, weak, residue));
    CallbackKeepsOps(s, s', id0, weak, residue);
    CallbackKeepsValues(s, s', id0, weak, residue);
  }

  /** Nobody else on the slot is at the version that `id0` is about to leave. */
  lemma OthersWaitForLater(s: State, id0: Id, id: Id)
    requires Inv(s) && Has(s, id0) && Inside(Get(s, id0).pc)
    requires Has(s, id) && id != id0 && Slot(s, id) == Slot(s, id0) && !Advanced(Get(s, id).pc)
    ensures !Inside(Get(s, id).pc) && Expected(s.bits, id) > s.version[Slot(s, id0)]
  {
    assert OpInv(s, id0) && OpInv(s, id);
    if Expected(s.bits, id) == Expected(s.bits, id0) { InsideIsUnique(s, id, id0); }
  }

  lemma AdvanceKeepsOp(s: State, s': State, id0: Id, id: Id)
    requires Shape(s) && Has(s, id0) && Get(s, id0).pc.Advance? && s' == Next(s, Act(id0, false, 0))
    requires OpInv(s, id0) && Has(s, id) && OpInv(s, id)
    requires id != id0 && Slot(s, id) == Slot(s, id0) && !Advanced(Get(s, id).pc)
      ==> !Inside(Get(s, id).pc) && Expected(s.bits, id) > s.version[Slot(s, id0)]
    requires WakeOwed(s, Slot(s, id)) ==> WakeOwed(s', Slot(s, id))
    requires Slot(s, id) == Slot(s, id0) && Tagged(s.words[Slot(s, id)]) ==> WakeOwed(s', Slot(s, id))
    ensures OpInv(s', id)
  {
  }

  lemma AdvanceKeepsOps(s: State, s': State, id0: Id)
    requires Inv(s) && Has(s, id0) && Get(s, id0).pc.Advance? && s' == Next(s, Act(id0, false, 0))
    ensures forall id | Has(s', id) :: OpInv(s', id)
  {
    WakersStay(s, s');
    assert Tagged(s.words[Slot(s, id0)]) ==> Get(s', id0).pc.Wake?;
    assert Tagged(s.words[Slot(s, id0)]) ==> WakeOwed(s', Slot(s, id0));
    forall id | Has(s', id) ensures OpInv(s', id) {
      if id != id0 && Slot(s, id) == Slot(s, id0) && !Advanced(Get(s, id).pc) { OthersWaitForLater(s, id0, id); }
      AdvanceKeepsOp(s, s', id0, id);
    }
  }

  lemma AdvanceKeepsIssued(s: State, s': State, id0: Id)
    requires Inv(s) && Has(s, id0) && Get(s, id0).pc.Advance? && s' == Next(s, Act(id0, false, 0))
    ensures Issued(s')
  {
    assert OpInv(s, id0);
    forall k: nat | SlotOf(s.bits, k) == Slot(s, id0)
      ensures Expected(s.bits, Push(k)) == s.version[Slot(s, id0)] ==> k < |s.pushes|
      ensures Expected(s.bits, Pop(k)) == s.version[Slot(s, id0)] ==> k < |s.pops|
    {
      TicketUnique(s.bits, k, id0.ticket);
    }
  }

  lemma AdvanceKeepsValues(s: State, s': State, id0: Id)
    requires Shape(s) && Has(s, id0) && Get(s, id0).pc.Advance? && s' == Next(s, Act(id0, false, 0))
    requires forall k: nat :: ValueInv(s, k)
    ensures forall k: nat :: ValueInv(s', k)
  {
    forall k: nat ensures ValueInv(s', k) { assert ValueInv(s, k); }
  }

  lemma AdvanceKeepsWords(s: State, id0: Id)
    requires Shape(s) && WordsMatch(s) && Has(s, id0) && Get(s, id0).pc.Advance?
    requires Expected(s.bits, id0) == s.version[Slot(s, id0)]
    ensures Shape(Next(s, Act(id0, false, 0))) && WordsMatch(Next(s, Act(id0, false, 0)))
  {
    assert Raw(Expected16(s.bits, id0) + 1) == Raw(s.version[Slot(s, id0)] + 1);
  }

  lemma AdvanceKeepsInv(s: State, id0: Id)
    requires Inv(s) && Has(s, id0) && Get(s, id0).pc.Advance?
    ensures Inv(Next(s, Act(id0, false, 0)))
  {
    var s' := Next(s, Act(id0, false, 0));
    assert OpInv(s, id0);
    AdvanceKeepsOps(s, s', id0);
    AdvanceKeepsIssued(s, s', id0);
    AdvanceKeepsValues(s, s', id0);
    AdvanceKeepsWords(s, id0);
  }

  lemma WakeKeepsOp(s: State, s': State, id0: Id, id: Id)
    requires Shape(s) && Has(s, id0) && Get(s, id0).pc.Wake? && s' == Next(s, Act(id0, false, 0))
    requires Has(s, id) && OpInv(s, id)
    requires Slot(s, id) != Slot(s, id0) && WakeOwed(s, Slot(s, id)) ==> WakeOwed(s', Slot(s, id))
    ensures OpInv(s', id)
  {
  }

  lemma OtherWakersStay(s: State, s': State, id0: Id, j: nat)
    requires Shape(s) && Has(s, id0) && Get(s, id0).pc.Wake? && s' == Next(s, Act(id0, false, 0))
    requires j != Slot(s, id0) && WakeOwed(s, j)
    ensures WakeOwed(s', j)
  {
    var waker :| Has(s, waker) && Slot(s, waker) == j && Get(s, waker).pc.Wake?;
    assert Has(s', waker) && Slot(s', waker) == j && Get(s', waker).pc.Wake?;
  }

  lemma WakeKeepsOps(s: State, s': State, id0: Id)
    requires Inv(s) && Has(s, id0) && Get(s, id0).pc.Wake? && s' == Next(s, Act(id0, false, 0))
    ensures forall id | Has(s', id) :: OpInv(s', id)
  {
    forall id | Has(s', id) ensures OpInv(s', id) {
      assert Has(s, id);
      var j := Slot(s, id);
      if j != Slot(s, id0) && WakeOwed(s, j) { OtherWakersStay(s, s', id0, j); }
      WakeKeepsOp(s, s', id0, id);
    }
  }

  lemma WakeKeepsValues(s: State, s': State, id0: Id)
    requires Shape(s) && Has(s, id0) && Get(s, id0).pc.Wake? && s' == Next(s, Act(id0, false, 0))
    requires forall k: nat :: ValueInv(s, k)
    ensures forall k: nat :: ValueInv(s', k)
  {
    forall k: nat ensures ValueInv(s', k) { assert ValueInv(s, k); }
  }

  lemma WakeKeepsInv(s: State, id0: Id)
    requires Inv(s) && Has(s, id0) && Get(s, id0).pc.Wake?
    ensures Inv(Next(s, Act(id0, false, 0)))
  {
    var s' := Next(s, Act(id0, false, 0));
    WakeKeepsOps(s, s', id0);
    WakeKeepsValues(s, s', id0);
  }

  /** Only the tagging step looks at `weak`, and only a pop's callback at `residue`. */
  lemma ChoicesDoNotMatter(s: State, id: Id, weak: bool, residue: int)
    requires Shape(s) && Has(s, id) && (Get(s, id).pc.Advance? || Get(s, id).pc.Wake?)
    ensures Next(s, Act(id, weak, residue)) == Next(s, Act(id, false, 0))
  {
  }

  lemma ActKeepsInv(s: State, id: Id, weak: bool, residue: int)
    requires Inv(s) && FewInFlight(s) && Enabled(s, Act(id, weak, residue))
    ensures Inv(Next(s, Act(id, weak, residue)))
  {
    var pc := Get(s, id).pc;
    if pc.Wait? {
      LoadKeepsInv(s, id, weak, residue);
    } else if pc.Mark? {
      MarkKeepsInv(s, id, weak, residue);
    } else if pc.Sleep? {
      SleepKeepsInv(s, id, weak, residue);
    } else if pc.Callback? {
      CallbackKeepsInv(s, id, weak, residue);
    } else if pc.Advance? {
      ChoicesDoNotMatter(s, id, weak, residue);
      AdvanceKeepsInv(s, id);
    } else {
      ChoicesDoNotMatter(s, id, weak, residue);
      WakeKeepsInv(s, id);
    }
  }

  lemma StepKeepsInv(s: State, s': State)
    requires Inv(s) && BoundedMoves(s, s')
    ensures Inv(s')
  {
    var step :| Enabled(s, step) && s' == Next(s, step);
    if step.Act? {
      ActKeepsInv(s, step.id, step.weak, step.residue);
    } else if step.Interrupt? {
      InterruptKeepsInv(s, step.id);
    } else {
      DrawKeepsInv(s, step);
    }
  }

  lemma RunKeepsInv(run: seq<State>, i: nat)
    requires IsQueueRun(run) && i < |run|
    ensures Inv(run[i])
  {
    forall s | Init(s) ensures Inv(s) {
      forall k: nat ensures ValueInv(s, k) {}
    }
    forall s, s' | Inv(s) && BoundedMoves(s, s') ensures Inv(s') { StepKeepsInv(s, s'); }
    InvariantOfRun(Init, BoundedMoves, Inv, run);
  }

  // ---------- What holds in every state of every run ----------

  /** At most one operation is ever inside the callback of a slot, however often the 16-bit versions have wrapped. */
  lemma MutualExclusion(run: seq<State>, i: nat, a: Id, b: Id)
    requires IsQueueRun(run) && i < |run|
    requires Has(run[i], a) && Inside(Get(run[i], a).pc)
    requires Has(run[i], b) && Inside(Get(run[i], b).pc)
    requires Slot(run[i], a) == Slot(run[i], b)
    ensures a == b
  {
    RunKeepsInv(run, i);
    assert OpInv(run[i], a) && OpInv(run[i], b);
    InsideIsUnique(run[i], a, b);
  }

  /** A step whose operations in flight are few enough. */
  ghost predicate Takes(s: State, step: Step, s': State) {
    FewInFlight(s) && Shape(s) && Enabled(s, step) && s' == Next(s, step)
  }

  lemma StepKeepsValues(s: State, step: Step, k: nat)
    requires Shape(s) && Enabled(s, step)
    ensures var s' := Next(s, step);
      && (k < |s.pushes| ==> k < |s'.pushes| && s'.pushes[k].value == s.pushes[k].value)
      && (|s.pushes| <= k < |s'.pushes| ==> k == |s.pushes| && step.DrawPush? && s'.pushes[k].value == step.value)
  {
  }

  /** Every push still has the value that it was called with in the step in which it drew its ticket. */
  lemma {:induction false} PushWasDrawn(run: seq<State>, steps: seq<Step>, n: nat, k: nat) returns (i: nat)
    requires Follows(Init, Takes, run, steps) && n < |run| && k < |run[n].pushes|
    ensures i < n && steps[i].DrawPush? && |run[i].pushes| == k && run[n].pushes[k].value == steps[i].value
  {
    assert n > 0;
    assert Takes(run[n - 1], steps[n - 1], run[n - 1 + 1]);
    StepKeepsValues(run[n - 1], steps[n - 1], k);
    if k < |run[n - 1].pushes| { i := PushWasDrawn(run, steps, n - 1, k); } else { i := n - 1; }
  }

  /** The queue is first in, first out by ticket: a pop with ticket `k` that has its value got the value that the push which
      drew ticket `k` was called with, and it was written before. */
  lemma FifoByTicket(run: seq<State>, steps: seq<Step>, n: nat, k: nat) returns (i: nat)
    requires Follows(Init, Takes, run, steps) && n < |run| && Read(run[n], k)
    ensures i < n && steps[i].DrawPush? && |run[i].pushes| == k
    ensures Written(run[n], k) && run[n].pops[k].value == steps[i].value
  {
    FollowsIsRun(Init, Takes, BoundedMoves, run, steps);
    RunKeepsInv(run, n);
    assert ValueInv(run[n], k);
    i := PushWasDrawn(run, steps, n, k);
  }

  ghost function Unread(s: State): set<nat> {
    set k: nat | k < |s.pushes| && Written(s, k) && !Read(s, k)
  }

  /** Never more values are written and not yet read than there are slots. */
  lemma CapacityIsNeverExceeded(run: seq<State>, i: nat)
    requires IsQueueRun(run) && i < |run|
    ensures |Unread(run[i])| <= Pow2(run[i].bits)
  {
    RunKeepsInv(run, i);
    var s := run[i];
    var slotOf := (k: nat) => SlotOf(s.bits, k);
    forall k, k' | k in Unread(s) && k' in Unread(s) && slotOf(k) == slotOf(k') ensures k == k' {
      UnreadRound(s, k);
      UnreadRound(s, k');
      TicketUnique(s.bits, k, k');
    }
    InjectionCard(Unread(s), slotOf, Pow2(s.bits));
  }

  /** The slot of an unread value is in the round of that value. */
  lemma UnreadRound(s: State, k: nat)
    requires Inv(s) && k in Unread(s)
    ensures RoundOf(s.bits, k) == s.version[SlotOf(s.bits, k)] / 2
  {
    assert OpInv(s, Push(k));
    if k < |s.pops| { assert OpInv(s, Pop(k)); }
  }

  /** No wakeup is lost: an operation asleep on a slot sleeps on the current tagged word, whose version is not the one
      it wants, or somebody still owes the slot a `wake_all`. */
  lemma NoLostWakeup(run: seq<State>, i: nat, id: Id)
    requires IsQueueRun(run) && i < |run|
    requires Has(run[i], id) && Get(run[i], id).pc.Asleep?
    ensures Shape(run[i])
    ensures var s, j := run[i], Slot(run[i], id);
      WakeOwed(s, j) || (Tagged(s.words[j]) && s.words[j] == Get(s, id).pc.seen && Raw(s.words[j]) != Expected16(s.bits, id))
  {
    RunKeepsInv(run, i);
    assert OpInv(run[i], id);
  }

  // ---------- Progress ----------

  /** The operation whose turn it is on slot `j`. */
  ghost function Head(s: State, j: nat): Id
    requires Shape(s) && j < |s.version|
  {
    var k := s.version[j] / 2 * Pow2(s.bits) + j;
    if s.version[j] % 2 == 0 then Push(k) else Pop(k)
  }

  /** What an operation waits for has been asked for: a pop's push, or the pop that makes room for a push. */
  predicate Supplied(s: State, id: Id) {
    match id
    case Push(i) => i < Pow2(s.bits) || i - Pow2(s.bits) < |s.pops|
    case Pop(i) => i < |s.pushes|
  }

  /** While a supplied operation is outstanding, the one whose turn it is has drawn its ticket. */
  lemma HeadIsOutstanding(s: State, id: Id) returns (head: Id)
    requires Inv(s) && Has(s, id) && Supplied(s, id) && !Advanced(Get(s, id).pc)
    ensures head == Head(s, Slot(s, id)) && Has(s, head) && Slot(s, head) == Slot(s, id)
    ensures Expected(s.bits, head) == s.version[Slot(s, id)] && !Advanced(Get(s, head).pc)
  {
    var j := Slot(s, id);
    assert OpInv(s, id);
    head := Head(s, j);
    TicketOf(s.bits, j, s.version[j] / 2);
    TicketUnique(s.bits, head.ticket, id.ticket);
    if id.Push? && head.Pop? {
      PreviousRound(s.bits, id.ticket);
      TicketUnique(s.bits, head.ticket, id.ticket - Pow2(s.bits));
    }
    assert OpInv(s, head);
  }

  /** `id` has not advanced its slot, which shows the version it wants; and if it sleeps, somebody owes a `wake_all`. */
  ghost predicate CanGoOn(s: State, id: Id)
    requires Shape(s) && Has(s, id)
  {
    && !Advanced(Get(s, id).pc)
    && Raw(s.words[Slot(s, id)]) == Expected16(s.bits, id)
    && (Get(s, id).pc.Asleep? ==> WakeOwed(s, Slot(s, id)))
  }

  /** No deadlock: while a supplied operation is outstanding - a pop whose push was issued, say - some outstanding operation on the
      slot already sees the version it wants, and if it sleeps, an operation that owes a `wake_all` is about to wake it. */
  lemma NoDeadlock(run: seq<State>, n: nat, id: Id)
    requires IsQueueRun(run) && n < |run| && Has(run[n], id) && Supplied(run[n], id) && !Advanced(Get(run[n], id).pc)
    ensures Shape(run[n])
    ensures exists head :: Has(run[n], head) && Slot(run[n], head) == Slot(run[n], id) && CanGoOn(run[n], head)
  {
    RunKeepsInv(run, n);
    var head := HeadIsOutstanding(run[n], id);
    assert OpInv(run[n], head);
  }

  /** One operation that is awake takes its next action. */
  ghost predicate Acts(s: State, s': State) {
    Shape(s) && exists id :: Enabled(s, Act(id, false, 0)) && s' == Next(s, Act(id, false, 0))
  }

  function Rank(pc: Pc): nat {
    match pc
    case Asleep(_) => 4
    case Mark(_) => 3
    case Sleep(_) => 3
    case Wait => 2
    case Callback => 1
    case _ => 0
  }

  ghost function HeadRank(s: State, j: nat): nat
    requires Shape(s) && j < |s.version|
  {
    if Has(s, Head(s, j)) then Rank(Get(s, Head(s, j)).pc) else 0
  }

  /** How far an outstanding operation is from its turn: versions still to go, and then the rank of the operation whose turn it
      is. */
  ghost function VersionsToGo(s: State, id: Id): nat
    requires Shape(s)
  {
    var d := Expected(s.bits, id) + 1 - s.version[Slot(s, id)];
    if d < 0 then 0 else d
  }

  ghost predicate NotFurther(s: State, s': State, id: Id)
    requires Shape(s) && Shape(s')
  {
    Closer(s, s', id)
    || (VersionsToGo(s', id) == VersionsToGo(s, id) && HeadRank(s', Slot(s', id)) == HeadRank(s, Slot(s, id)))
  }

  ghost predicate Closer(s: State, s': State, id: Id)
    requires Shape(s) && Shape(s')
  {
    || VersionsToGo(s', id) < VersionsToGo(s, id)
    || (VersionsToGo(s', id) == VersionsToGo(s, id) && HeadRank(s', Slot(s', id)) < HeadRank(s, Slot(s, id)))
  }

  /** The actions that the operation whose turn it is depends on are its own, and while it sleeps those that owe a `wake_all`. */
  ghost predicate Helps(s: State, head: Id, actor: Id)
    requires Has(s, head) && Has(s, actor)
  {
    if Get(s, head).pc.Asleep? then Get(s, actor).pc.Wake? && Slot(s, actor) == Slot(s, head) else actor == head
  }

  /** It is `head`'s turn on its slot. */
  ghost predicate HasTurn(s: State, head: Id) {
    && Shape(s) && Has(s, head) && OpInv(s, head) && !Advanced(Get(s, head).pc)
    && Expected(s.bits, head) == s.version[Slot(s, head)]
    && Raw(s.words[Slot(s, head)]) == Raw(s.version[Slot(s, head)])
  }

  /** Only the operation whose turn it is changes the version of the slot. */
  lemma OnlyHeadAdvances(s: State, head: Id, step: Step)
    requires Inv(s) && Enabled(s, step) && HasTurn(s, head)
    ensures var v := Next(s, step).version;
      && |v| == |s.version|
      && v[Slot(s, head)] == s.version[Slot(s, head)] + (if step.Act? && step.id == head && Get(s, head).pc.Advance? then 1 else 0)
  {
    if step.Act? && Get(s, step.id).pc.Advance? && Slot(s, step.id) == Slot(s, head) {
      assert OpInv(s, step.id);
      InsideIsUnique(s, head, step.id);
    }
  }

  /** The operation whose turn it is never goes back to sleep: each of its own actions brings it closer to advancing the slot. */
  lemma HeadComesCloser(s: State, head: Id, weak: bool, residue: int)
    requires HasTurn(s, head) && Enabled(s, Act(head, weak, residue)) && !Get(s, head).pc.Advance?
    ensures var s' := Next(s, Act(head, weak, residue));
      Has(s', head) && !Advanced(Get(s', head).pc) && Rank(Get(s', head).pc) < Rank(Get(s, head).pc)
  {
  }

  /** What the others do changes nothing for it, except that it may be woken, or wake by itself. */
  lemma OthersDoNotHinder(s: State, head: Id, step: Step)
    requires Shape(s) && Has(s, head) && Enabled(s, step) && !(step.Act? && step.id == head)
    ensures var s' := Next(s, step);
      Has(s', head) && (Get(s', head).pc == Get(s, head).pc || (Get(s, head).pc.Asleep? && Get(s', head).pc == Wait))
  {
  }

  /** A `wake_all` wakes it. */
  lemma WakeHelps(s: State, head: Id, actor: Id, weak: bool, residue: int)
    requires Shape(s) && Has(s, head) && Get(s, head).pc.Asleep? && Enabled(s, Act(actor, weak, residue))
    requires Get(s, actor).pc.Wake? && Slot(s, actor) == Slot(s, head)
    ensures var s' := Next(s, Act(actor, weak, residue)); Has(s', head) && Get(s', head).pc == Wait
  {
  }

  lemma StepKeepsIssue(s: State, step: Step)
    requires Shape(s) && Enabled(s, step)
    ensures var s' := Next(s, step); s'.bits == s.bits && |s'.pushes| >= |s.pushes| && |s'.pops| >= |s.pops|
  {
  }

  /** No tickets have been issued, and no operation is back in flight. */
  ghost predicate Settles(s: State, s': State) {
    && |s'.pushes| == |s.pushes| && |s'.pops| == |s.pops| && s'.bits == s.bits
    && (forall k | 0 <= k < |s.pushes| :: s'.pushes[k].value == s.pushes[k].value)
    && (forall id | Has(s, id) && Advanced(Get(s, id).pc) :: Advanced(Get(s', id).pc))
  }

  lemma SettlesTransitively(a: State, b: State, c: State)
    requires Settles(a, b) && Settles(b, c)
    ensures Settles(a, c)
  {
    forall id | Has(a, id) && Advanced(Get(a, id).pc) ensures Advanced(Get(c, id).pc) { assert Advanced(Get(b, id).pc); }
  }

  /** Running one operation issues no tickets and brings no operation back in flight. */
  lemma ActKeepsTickets(s: State, actor: Id, s': State)
    requires Shape(s) && Enabled(s, Act(actor, false, 0)) && s' == Next(s, Act(actor, false, 0))
    ensures |s'.pushes| == |s.pushes| && |s'.pops| == |s.pops| && s'.bits == s.bits && |s'.words| == |s.words|
    ensures forall k | 0 <= k < |s.pushes| :: s'.pushes[k].value == s.pushes[k].value
    ensures forall id | Has(s, id) && Advanced(Get(s, id).pc) :: Advanced(Get(s', id).pc)
  {
  }

  lemma ActStaysBounded(s: State, actor: Id, s': State)
    requires Inv(s) && FewInFlight(s) && Enabled(s, Act(actor, false, 0)) && s' == Next(s, Act(actor, false, 0))
    ensures Inv(s') && FewInFlight(s')
  {
    ActKeepsTickets(s, actor, s');
    assert Moves(s, s');
    StepKeepsInv(s, s');
    forall j | 0 <= j < |s'.words|
      ensures |InFlight(s.bits, s'.pushes, j)| <= IN_FLIGHT && |InFlight(s.bits, s'.pops, j)| <= IN_FLIGHT
    {
      assert forall k | 0 <= k < |s.pushes| && Advanced(Get(s, Push(k)).pc) :: Advanced(Get(s', Push(k)).pc);
      assert forall k | 0 <= k < |s.pops| && Advanced(Get(s, Pop(k)).pc) :: Advanced(Get(s', Pop(k)).pc);
      SubsetCard(InFlight(s.bits, s'.pushes, j), InFlight(s.bits, s.pushes, j));
      SubsetCard(InFlight(s.bits, s'.pops, j), InFlight(s.bits, s.pops, j));
    }
  }

  /** Some operation that is awake is one that the slot depends on. */
  lemma Helper(s: State, head: Id) returns (actor: Id)
    requires Inv(s) && Has(s, head) && Expected(s.bits, head) == s.version[Slot(s, head)] && !Advanced(Get(s, head).pc)
    ensures Has(s, actor) && Helps(s, head, actor) && !Get(s, actor).pc.Asleep? && !Get(s, actor).pc.Done?
  {
    assert OpInv(s, head);
    actor := head;
    if Get(s, head).pc.Asleep? {
      actor :| Has(s, actor) && Slot(s, actor) == Slot(s, head) && Get(s, actor).pc.Wake?;
    }
  }

  /** An outstanding operation and the one whose turn it is on the slot. */
  ghost predicate WaitsFor(s: State, id: Id, head: Id) {
    && HasTurn(s, head) && Has(s, id) && Slot(s, head) == Slot(s, id) && head == Head(s, Slot(s, id))
    && s.version[Slot(s, id)] <= Expected(s.bits, id)
  }

  lemma NextVersionIsCloser(s: State, s': State, id: Id, head: Id)
    requires Shape(s') && WaitsFor(s, id, head) && s'.bits == s.bits
    requires s'.version[Slot(s, id)] == s.version[Slot(s, id)] + 1
    ensures Closer(s, s', id)
  {
  }

  lemma SameVersionSameHead(s: State, s': State, id: Id, head: Id)
    requires Shape(s') && WaitsFor(s, id, head) && s'.bits == s.bits && Has(s', head)
    requires s'.version[Slot(s, id)] == s.version[Slot(s, id)]
    ensures Head(s', Slot(s', id)) == head && VersionsToGo(s', id) == VersionsToGo(s, id)
    ensures HeadRank(s', Slot(s', id)) == Rank(Get(s', head).pc) && HeadRank(s, Slot(s, id)) == Rank(Get(s, head).pc)
  {
  }

  /** No step takes an outstanding operation further from its turn, and those that the slot depends on bring it closer. */
  lemma StepNotFurther(s: State, step: Step, id: Id, head: Id)
    requires Inv(s) && Enabled(s, step) && Shape(Next(s, step)) && WaitsFor(s, id, head)
    ensures NotFurther(s, Next(s, step), id)
    ensures step.Act? && Helps(s, head, step.id) ==> Closer(s, Next(s, step), id)
  {
    var s' := Next(s, step);
    OnlyHeadAdvances(s, head, step);
    StepKeepsIssue(s, step);
    if step.Act? && step.id == head && Get(s, head).pc.Advance? {
      NextVersionIsCloser(s, s', id, head);
    } else {
      if step.Act? && step.id == head { HeadComesCloser(s, head, step.weak, step.residue); }
      else { OthersDoNotHinder(s, head, step); }
      SameVersionSameHead(s, s', id, head);
      if step.Act? && step.id != head && Helps(s, head, step.id) { WakeHelps(s, head, step.id, step.weak, step.residue); }
    }
  }

  /** While an outstanding operation comes no closer, the same operations still help. */
  lemma HelpStays(s: State, step: Step, id: Id, head: Id, actor: Id)
    requires Inv(s) && Enabled(s, step) && Shape(Next(s, step)) && WaitsFor(s, id, head)
    requires Has(s, actor) && Helps(s, head, actor) && !(step.Act? && step.id == actor) && !Closer(s, Next(s, step), id)
    ensures var s' := Next(s, step);
      s'.bits == s.bits && Has(s', actor) && Head(s', Slot(s', id)) == head && Has(s', head) && Helps(s', head, actor)
  {
    OnlyHeadAdvances(s, head, step);
    StepKeepsIssue(s, step);
    OthersDoNotHinder(s, actor, step);
    OthersDoNotHinder(s, head, step);
  }

  // ---------- From every state an outstanding pop can be completed ----------

  lemma CloserToTurn(s: State, i: nat) returns (s': State)
    requires Inv(s) && FewInFlight(s) && i < |s.pops| && i < |s.pushes| && !Advanced(s.pops[i].pc)
    ensures Inv(s') && FewInFlight(s') && Acts(s, s')
    ensures i < |s'.pops| && i < |s'.pushes| && s'.pushes[i].value == s.pushes[i].value
    ensures Closer(s, s', Pop(i))
    ensures s'.bits == s.bits && Settles(s, s')
  {
    var head := HeadIsOutstanding(s, Pop(i));
    var actor := Helper(s, head);
    s' := Next(s, Act(actor, false, 0));
    ActKeepsTickets(s, actor, s');
    ActStaysBounded(s, actor, s');
    assert OpInv(s, Pop(i)) && OpInv(s, head);
    StepNotFurther(s, Act(actor, false, 0), Pop(i), head);
  }

  /** From every state, an outstanding pop whose push was issued can be completed by the operations that are already
      there, and it then has the value of its push. */
  lemma {:induction false} PopCanComplete(s: State, i: nat) returns (run: seq<State>)
    requires Inv(s) && FewInFlight(s) && i < |s.pops| && i < |s.pushes|
    ensures |run| > 0 && run[0] == s && forall n | 0 < n < |run| :: Acts(run[n - 1], run[n])
    ensures var last := run[|run| - 1];
      i < |last.pops| && Advanced(last.pops[i].pc) && last.pops[i].value == s.pushes[i].value
    ensures Inv(run[|run| - 1]) && FewInFlight(run[|run| - 1]) && Settles(s, run[|run| - 1])
    decreases VersionsToGo(s, Pop(i)), HeadRank(s, SlotOf(s.bits, i))
  {
    if Advanced(s.pops[i].pc) {
      assert ValueInv(s, i);
      run := [s];
    } else {
      var s' := CloserToTurn(s, i);
      var rest := PopCanComplete(s', i);
      run := [s] + rest;
      SettlesTransitively(s, s', rest[|rest| - 1]);
      OneMoreAct(s, rest);
    }
  }

  lemma OneMoreAct(s: State, rest: seq<State>)
    requires |rest| > 0 && Acts(s, rest[0]) && forall n | 0 < n < |rest| :: Acts(rest[n - 1], rest[n])
    ensures var run := [s] + rest; run[|run| - 1] == rest[|rest| - 1] && forall n | 0 < n < |run| :: Acts(run[n - 1], run[n])
  {
    var run := [s] + rest;
    forall n | 0 < n < |run| ensures Acts(run[n - 1], run[n]) {
      if n > 1 { assert Acts(rest[n - 2], rest[n - 1]); }
    }
  }

  // ---------- In every fair run it is completed ----------

  /** Time passes: nothing happens, or one step. */
  ghost predicate Passes(run: nat -> State, n: nat) { run(n + 1) == run(n) || BoundedMoves(run(n), run(n + 1)) }

  ghost predicate TakesAction(s: State, s': State, id: Id) {
    Shape(s) && exists weak, residue :: Enabled(s, Act(id, weak, residue)) && s' == Next(s, Act(id, weak, residue))
  }

  /** At time `m`, operation `id` takes its next action. */
  ghost predicate ActsAt(run: nat -> State, m: nat, id: Id) { TakesAction(run(m), run(m + 1), id) }

  /** An operation that is awake at time `n` takes its next action at some later time. */
  ghost predicate IsFairTo(run: nat -> State, n: nat, id: Id) {
    Has(run(n), id) && !Get(run(n), id).pc.Asleep? && !Get(run(n), id).pc.Done? ==> exists m: nat :: m >= n && ActsAt(run, m, id)
  }

  /** A run without end in which no operation that is awake is held up forever. Others may come at any time, futex waits may
      return by themselves, and weak exchanges may fail. */
  ghost predicate IsFairRun(run: nat -> State) {
    && Init(run(0))
    && (forall n: nat :: Passes(run, n))
    && (forall n: nat, id :: IsFairTo(run, n, id))
  }

  lemma {:induction false} FairRunKeepsInv(run: nat -> State, n: nat)
    requires IsFairRun(run)
    ensures Inv(run(n))
  {
    if n == 0 {
      forall k: nat ensures ValueInv(run(0), k) {}
    } else {
      FairRunKeepsInv(run, n - 1);
      assert Passes(run, n - 1);
      if run(n) != run(n - 1) { StepKeepsInv(run(n - 1), run(n)); }
    }
  }

  ghost predicate Awaits(s: State, id: Id) { Inv(s) && Has(s, id) && Supplied(s, id) && !Advanced(Get(s, id).pc) }

  /** `actor` is one of those that the slot of `id` depends on. */
  ghost predicate HelpsTurn(s: State, id: Id, actor: Id) {
    && Awaits(s, id) && Has(s, actor)
    && var head := Head(s, Slot(s, id)); WaitsFor(s, id, head) && Helps(s, head, actor)
  }

  lemma AwaitsItsHead(s: State, id: Id)
    requires Awaits(s, id)
    ensures WaitsFor(s, id, Head(s, Slot(s, id)))
  {
    var head := HeadIsOutstanding(s, id);
    assert OpInv(s, id) && OpInv(s, head);
  }

  lemma NotCloserMeansAwaiting(s: State, s': State, id: Id)
    requires Awaits(s, id) && Inv(s') && Has(s', id) && Supplied(s', id) && s'.bits == s.bits && !Closer(s, s', id)
    ensures Awaits(s', id)
  {
    assert OpInv(s, id) && OpInv(s', id);
  }

  /** When the helper acts, the operation comes closer to its turn; until then it comes no further from it and the helper helps. */
  lemma OneStepOn(s: State, step: Step, id: Id, actor: Id)
    requires HelpsTurn(s, id, actor) && Enabled(s, step) && Inv(Next(s, step))
    ensures var s' := Next(s, step);
      && Has(s', id) && Supplied(s', id)
      && (Closer(s, s', id) || (!(step.Act? && step.id == actor) && NotFurther(s, s', id) && HelpsTurn(s', id, actor)))
  {
    var s', head := Next(s, step), Head(s, Slot(s, id));
    StepNotFurther(s, step, id, head);
    StepKeepsIssue(s, step);
    if !Closer(s, s', id) {
      HelpStays(s, step, id, head, actor);
      NotCloserMeansAwaiting(s, s', id);
      AwaitsItsHead(s', id);
    }
  }

  lemma PassesOn(s: State, s': State, id: Id, actor: Id)
    requires HelpsTurn(s, id, actor) && Inv(s') && (s' == s || BoundedMoves(s, s'))
    ensures Has(s', id) && Supplied(s', id)
    ensures Closer(s, s', id) || (NotFurther(s, s', id) && HelpsTurn(s', id, actor))
    ensures TakesAction(s, s', actor) ==> Closer(s, s', id)
  {
    if TakesAction(s, s', actor) {
      var weak, residue :| Enabled(s, Act(actor, weak, residue)) && s' == Next(s, Act(actor, weak, residue));
      OneStepOn(s, Act(actor, weak, residue), id, actor);
    } else if s' != s {
      var step :| Enabled(s, step) && s' == Next(s, step);
      OneStepOn(s, step, id, actor);
    }
  }

  lemma CloserStill(a: State, b: State, c: State, id: Id)
    requires Shape(a) && Shape(b) && Shape(c) && NotFurther(a, b, id) && Closer(b, c, id)
    ensures Closer(a, c, id)
  {
  }

  /** From time `n` to time `k` the operation has come no closer to its turn, and the helper has not acted. */
  ghost predicate Waits(run: nat -> State, n: nat, k: nat, id: Id, actor: Id) {
    Shape(run(n)) && HelpsTurn(run(k), id, actor) && NotFurther(run(n), run(k), id) && !Closer(run(n), run(k), id)
  }

  ghost predicate HasComeCloser(run: nat -> State, n: nat, k: nat, id: Id) {
    Shape(run(n)) && Inv(run(k)) && Has(run(k), id) && Supplied(run(k), id) && Closer(run(n), run(k), id)
  }

  lemma WaitsOrCloser(run: nat -> State, n: nat, k: nat, id: Id, actor: Id)
    requires Waits(run, n, k, id, actor) && Passes(run, k) && Inv(run(k + 1))
    ensures Waits(run, n, k + 1, id, actor) || HasComeCloser(run, n, k + 1, id)
    ensures ActsAt(run, k, actor) ==> HasComeCloser(run, n, k + 1, id)
  {
    PassesOn(run(k), run(k + 1), id, actor);
    if Closer(run(k), run(k + 1), id) { CloserStill(run(n), run(k), run(k + 1), id); }
  }

  lemma FairRunPasses(run: nat -> State, n: nat)
    requires IsFairRun(run)
    ensures Passes(run, n) && Inv(run(n + 1))
  {
    FairRunKeepsInv(run, n + 1);
  }

  /** The helper acts at time `m`: by then the operation has come closer to its turn. */
  lemma ComesCloser(run: nat -> State, n: nat, m: nat, id: Id, actor: Id) returns (k: nat)
    requires IsFairRun(run) && n <= m && ActsAt(run, m, actor) && HelpsTurn(run(n), id, actor)
    ensures n < k && HasComeCloser(run, n, k, id)
  {
    var waits, over := (i: nat) => Waits(run, n, i, id, actor), (i: nat) => HasComeCloser(run, n, i, id);
    forall i: nat | n <= i <= m ensures GoesOnOrEnds(waits, over, i, m) {
      if waits(i) {
        FairRunPasses(run, i);
        WaitsOrCloser(run, n, i, id, actor);
      }
    }
    k := WaitEnds(waits, over, n, m);
  }

  lemma {:induction false} TurnComes(run: nat -> State, n: nat, id: Id) returns (m: nat)
    requires IsFairRun(run) && Inv(run(n)) && Has(run(n), id) && Supplied(run(n), id)
    ensures n <= m && Inv(run(m)) && Has(run(m), id) && Advanced(Get(run(m), id).pc)
    decreases VersionsToGo(run(n), id), HeadRank(run(n), Slot(run(n), id))
  {
    m := n;
    if !Advanced(Get(run(n), id).pc) {
      AwaitsItsHead(run(n), id);
      var actor := Helper(run(n), Head(run(n), Slot(run(n), id)));
      assert IsFairTo(run, n, actor);
      var acts: nat :| acts >= n && ActsAt(run, acts, actor);
      var k := ComesCloser(run, n, acts, id, actor);
      m := TurnComes(run, k, id);
    }
  }

  /** In every fair run, whatever the other operations do, a push for which there will be room and a pop whose push has been issued
      run their callbacks and advance their slots, and the pop then has the value of its push. */
  lemma FairRunsComplete(run: nat -> State, n: nat, id: Id) returns (m: nat)
    requires IsFairRun(run) && Has(run(n), id) && Supplied(run(n), id)
    ensures n <= m && Has(run(m), id) && Advanced(Get(run(m), id).pc)
    ensures id.Pop? ==> id.ticket < |run(m).pushes| && Get(run(m), id).value == run(m).pushes[id.ticket].value
  {
    FairRunKeepsInv(run, n);
    m := TurnComes(run, n, id);
    assert ValueInv(run(m), id.ticket);
  }

  /** At time `n` a push draws ticket `k` with value `value`. */
  ghost predicate Draws(run: nat -> State, n: nat, k: nat, value: int) {
    Shape(run(n)) && k == |run(n).pushes| && run(n + 1) == Next(run(n), DrawPush(value))
  }

  lemma {:induction false} ValueStays(run: nat -> State, n: nat, m: nat, k: nat, value: int)
    requires IsFairRun(run) && Draws(run, n, k, value) && n < m
    ensures k < |run(m).pushes| && run(m).pushes[k].value == value
  {
    if m > n + 1 {
      ValueStays(run, n, m - 1, k, value);
      assert Passes(run, m - 1);
      if run(m) != run(m - 1) {
        var step :| Enabled(run(m - 1), step) && run(m) == Next(run(m - 1), step);
        StepKeepsValues(run(m - 1), step, k);
      }
    }
  }

  /** In every fair run, once a push has been called with a value and a pop has drawn the same ticket, the pop comes back with that
      value. */
  lemma FairRunsDeliver(run: nat -> State, n: nat, p: nat, k: nat, value: int) returns (m: nat)
    requires IsFairRun(run) && Draws(run, n, k, value) && n < p && Has(run(p), Pop(k))
    ensures p <= m && k < |run(m).pops| && Advanced(run(m).pops[k].pc) && run(m).pops[k].value == value
  {
    ValueStays(run, n, p, k, value);
    m := FairRunsComplete(run, p, Pop(k));
    ValueStays(run, n, m, k, value);
  }

  // ---------- reserve_and_clear ----------

  /** `__builtin_popcount` */
  function PopCount(x: nat): nat { if x == 0 then 0 else x % 2 + PopCount(x / 2) }

  lemma {:induction false} PopCountOfOnes(k: nat)
    ensures PopCount(Pow2(k) - 1) == k
  {
    if k > 0 {
      PopCountOfOnes(k - 1);
      assert (Pow2(k) - 1) / 2 == Pow2(k - 1) - 1 && (Pow2(k) - 1) % 2 == 1;
    }
  }

  /** The state that reserve_and_clear sets up for a new capacity; a slot's value is arbitrary. */
  function Reserved(minCapacity: nat, values: nat -> int): State {
    var capacity := NextPowTwo(minCapacity);
    State(PopCount(capacity - 1), seq(capacity, values), seq(capacity, _ => 0), [], [], seq(capacity, _ => 0))
  }

  /** Reserving starts the queue afresh, with the least power of two that is enough as its capacity. */
  lemma ReserveStartsAfresh(minCapacity: nat, values: nat -> int)
    ensures var s := Reserved(minCapacity, values);
      Init(s) && |s.values| >= minCapacity && forall j: nat | Pow2(j) >= minCapacity :: |s.values| <= Pow2(j)
  {
    var k := NextPowTwoIsLeast(minCapacity);
    PopCountOfOnes(k);
    forall j: nat | Pow2(j) >= minCapacity ensures Pow2(k) <= Pow2(j) { Pow2Monotone(k, j); }
  }

  /** Every operation that has drawn a ticket has run its callback and advanced its slot. */
  ghost predicate Quiet(s: State) { forall id | Has(s, id) :: Advanced(Get(s, id).pc) }

  ghost predicate ClearStep(s: State, s': State) { Acts(s, s') || (Shape(s) && s' == Next(s, DrawPop)) }

  /** Clearing a queue on which no operation is in flight: one pop after another completes, until every value has been read, the
      one of ticket `k` by the pop with ticket `k`. */
  lemma {:induction false} ClearReadsEverything(s: State) returns (run: seq<State>)
    requires Inv(s) && Quiet(s)
    ensures |run| > 0 && run[0] == s && forall n | 0 < n < |run| :: ClearStep(run[n - 1], run[n])
    ensures var last := run[|run| - 1];
      Inv(last) && Quiet(last) && |last.pops| == |last.pushes| == |s.pushes| && last.bits == s.bits && Unread(last) == {}
    decreases |s.pushes| - |s.pops|
  {
    NoMorePopsThanPushes(s);
    if |s.pops| == |s.pushes| {
      run := [s];
      QuietOps(s);
    } else {
      var i, s1 := |s.pops|, Next(s, DrawPop);
      QuietIsBounded(s);
      assert Moves(s, s1);
      StepKeepsInv(s, s1);
      OnePopIsBounded(s);
      var pop := PopCanComplete(s1, i);
      var s2 := pop[|pop| - 1];
      forall id | Has(s2, id) ensures Advanced(Get(s2, id).pc) {
        if id != Pop(i) { assert Has(s1, id) && Get(s1, id) == Get(s, id) && Advanced(Get(s1, id).pc); }
      }
      var rest := ClearReadsEverything(s2);
      run := [s] + pop + rest[1..];
      ClearSteps(s, pop, rest);
    }
  }

  lemma NoMorePopsThanPushes(s: State)
    requires Inv(s) && Quiet(s)
    ensures |s.pops| <= |s.pushes|
  {
    if s.pops != [] {
      var k := |s.pops| - 1;
      assert Has(s, Pop(k)) && ValueInv(s, k);
    }
  }

  /** reserve_and_clear, on a queue on which no operation is in flight. The capacity becomes the least power of two that is enough
      and nothing unread is left: a capacity that changes means a new start, and one that stays that every value is read. */
  lemma ReserveAndClear(s: State, minCapacity: nat, values: nat -> int) returns (run: seq<State>)
    requires Inv(s) && Quiet(s)
    ensures |run| > 0 && forall n | 0 < n < |run| :: ClearStep(run[n - 1], run[n])
    ensures if NextPowTwo(minCapacity) != |s.values| then run == [Reserved(minCapacity, values)] && Init(run[0]) else run[0] == s
    ensures var last := run[|run| - 1];
      && Inv(last) && Quiet(last) && Unread(last) == {} && |last.pops| == |last.pushes|
      && |last.values| >= minCapacity && forall j: nat | Pow2(j) >= minCapacity :: |last.values| <= Pow2(j)
  {
    ReserveStartsAfresh(minCapacity, values);
    if NextPowTwo(minCapacity) != |s.values| {
      run := [Reserved(minCapacity, values)];
      forall k: nat ensures ValueInv(run[0], k) {}
    } else {
      run := ClearReadsEverything(s);
    }
  }

  lemma ClearSteps(s: State, pop: seq<State>, rest: seq<State>)
    requires Shape(s) && |pop| > 0 && pop[0] == Next(s, DrawPop) && |rest| > 0 && rest[0] == pop[|pop| - 1]
    requires forall n | 0 < n < |pop| :: Acts(pop[n - 1], pop[n])
    requires forall n | 0 < n < |rest| :: ClearStep(rest[n - 1], rest[n])
    ensures var run := [s] + pop + rest[1..];
      run[|run| - 1] == rest[|rest| - 1] && forall n | 0 < n < |run| :: ClearStep(run[n - 1], run[n])
  {
    var run := [s] + pop + rest[1..];
    forall n | 0 < n < |run| ensures ClearStep(run[n - 1], run[n]) {
      if n <= |pop| {
        if n > 1 { assert Acts(pop[n - 2], pop[n - 1]); }
      } else {
        var k := n - |pop|;
        assert run[n] == rest[k] && run[n - 1] == rest[k - 1];
      }
    }
  }

  lemma QuietOps(s: State)
    requires Quiet(s)
    ensures forall k: nat | k < |s.pushes| :: Advanced(s.pushes[k].pc)
    ensures forall k: nat | k < |s.pops| :: Advanced(s.pops[k].pc)
  {
    forall k: nat | k < |s.pushes| ensures Advanced(s.pushes[k].pc) { assert Has(s, Push(k)); }
    forall k: nat | k < |s.pops| ensures Advanced(s.pops[k].pc) { assert Has(s, Pop(k)); }
  }

  lemma QuietIsBounded(s: State)
    requires Quiet(s)
    ensures FewInFlight(s)
  {
    forall j | 0 <= j < |s.words|
      ensures |InFlight(s.bits, s.pushes, j)| <= IN_FLIGHT && |InFlight(s.bits, s.pops, j)| <= IN_FLIGHT
    {
      QuietOps(s);
      assert InFlight(s.bits, s.pushes, j) == {} && InFlight(s.bits, s.pops, j) == {};
    }
  }

  lemma OnePopIsBounded(s: State)
    requires Shape(s) && Quiet(s)
    ensures FewInFlight(Next(s, DrawPop))
  {
    var s' := Next(s, DrawPop);
    forall j | 0 <= j < |s'.words|
      ensures |InFlight(s'.bits, s'.pushes, j)| <= IN_FLIGHT && |InFlight(s'.bits, s'.pops, j)| <= IN_FLIGHT
    {
      QuietOps(s);
      assert InFlight(s'.bits, s'.pushes, j) == {};
      SubsetCard(InFlight(s'.bits, s'.pops, j), {|s.pops|});
    }
  }

  // ---------- The bound on operations in flight is tight ----------

  function Drawn(n: nat): State {
    State(0, [0], [0], seq(n, i => Op(0, Wait)), [], [0])
  }

  ghost predicate OneTooMany(s: State) {
    forall j | 0 <= j < |s.words| :: |InFlight(s.bits, s.pushes, j)| <= IN_FLIGHT + 1 && s.pops == []
  }

  lemma {:induction false} DrawRun(n: nat) returns (run: seq<State>)
    ensures |run| == n + 1 && IsRun(Init, Moves, run) && run[n] == Drawn(n)
    ensures forall i | 0 <= i <= n :: run[i] == Drawn(i)
  {
    if n == 0 {
      run := [Drawn(0)];
    } else {
      var rest := DrawRun(n - 1);
      assert Enabled(rest[n - 1], DrawPush(0)) && Drawn(n) == Next(rest[n - 1], DrawPush(0));
      run := rest + [Drawn(n)];
    }
  }

  /** On a queue of capacity one whose word is 0, a push whose 16-bit version is 0 enters. */
  lemma Enter(s: State, i: nat) returns (s': State)
    requires Shape(s) && s.bits == 0 && s.words == [0]
    requires i < |s.pushes| && s.pushes[i].pc == Wait && Raw(2 * i) == 0
    ensures Moves(s, s') && s' == s.(pushes := s.pushes[i := s.pushes[i].(pc := Callback)])
  {
    SlotAndRound(0, i);
    assert Slot(s, Push(i)) == 0 && Expected16(0, Push(i)) == 0;
    assert Enabled(s, Act(Push(i), false, 0));
    s' := Next(s, Act(Push(i), false, 0));
  }

  /** With one push more than allowed in flight on a slot, two pushes can be inside its callback at the same time. */
  lemma BoundIsTight() returns (run: seq<State>, a: Id, b: Id)
    ensures IsRun(Init, Moves, run)
    ensures forall i | 0 <= i < |run| :: OneTooMany(run[i])
    ensures var last := run[|run| - 1];
      Has(last, a) && Has(last, b) && a != b && Slot(last, a) == Slot(last, b)
      && Inside(Get(last, a).pc) && Inside(Get(last, b).pc)
  {
    var draws := DrawRun(IN_FLIGHT + 1);
    var s1 := Enter(Drawn(IN_FLIGHT + 1), 0);
    var s2 := Enter(s1, IN_FLIGHT);
    a, b := Push(0), Push(IN_FLIGHT);
    run := draws + [s1, s2];
    forall i | 0 <= i < |run| ensures OneTooMany(run[i]) {
      if i < |draws| { assert run[i] == draws[i]; }
      BelowCard(InFlight(0, run[i].pushes, 0), IN_FLIGHT + 1);
    }
  }

  /** One push has gone through its slot, and `n` pops have drawn a ticket. */
  function Popping(n: nat): State {
    State(0, [0], [1], [Op(0, Done)], seq(n, i => Op(0, Wait)), [1])
  }

  ghost predicate OnePopTooMany(s: State) {
    forall j | 0 <= j < |s.words| ::
      |InFlight(s.bits, s.pushes, j)| <= 1 && |InFlight(s.bits, s.pops, j)| <= IN_FLIGHT + 1
  }

  /** The only push, on a queue of capacity one, at program counter `pc`. */
  function Pushed(pc: Pc): State { State(0, [0], [0], [Op(0, pc)], [], [0]) }

  lemma PushActs(pc: Pc, after: State)
    requires pc.Wait? || pc.Callback? || pc.Advance?
    requires after == if pc.Wait? then Pushed(Callback) else if pc.Callback? then Pushed(Advance) else Popping(0)
    ensures Moves(Pushed(pc), after)
  {
    SlotAndRound(0, 0);
    assert Expected16(0, Push(0)) == 0;
    assert Enabled(Pushed(pc), Act(Push(0), false, 0));
    assert Next(Pushed(pc), Act(Push(0), false, 0)) == after;
  }

  lemma PushDraws()
    ensures Moves(Drawn(0), Pushed(Wait))
  {
    assert Enabled(Drawn(0), DrawPush(0));
    assert Next(Drawn(0), DrawPush(0)) == Pushed(Wait);
  }

  lemma PushGoesThrough() returns (run: seq<State>)
    ensures IsRun(Init, Moves, run) && run[|run| - 1] == Popping(0)
    ensures forall i | 0 <= i < |run| :: |run[i].words| == 1 && |run[i].pushes| <= 1 && run[i].pops == []
  {
    PushDraws();
    PushActs(Wait, Pushed(Callback));
    PushActs(Callback, Pushed(Advance));
    PushActs(Advance, Popping(0));
    run := [Drawn(0), Pushed(Wait), Pushed(Callback), Pushed(Advance), Popping(0)];
  }

  lemma {:induction false} PopRun(n: nat) returns (run: seq<State>)
    ensures IsRun(Init, Moves, run) && run[|run| - 1] == Popping(n)
    ensures forall i | 0 <= i < |run| :: |run[i].words| == 1 && |run[i].pushes| <= 1 && |run[i].pops| <= n
  {
    if n == 0 {
      run := PushGoesThrough();
    } else {
      var rest := PopRun(n - 1);
      assert Enabled(Popping(n - 1), DrawPop) && Popping(n) == Next(Popping(n - 1), DrawPop);
      run := rest + [Popping(n)];
    }
  }

  /** On a queue of capacity one whose word is 1, a pop whose 16-bit version is 1 enters. */
  lemma EnterPop(s: State, i: nat) returns (s': State)
    requires Shape(s) && s.bits == 0 && s.words == [1]
    requires i < |s.pops| && s.pops[i].pc == Wait && Raw(2 * i) == 0
    ensures Moves(s, s') && s' == s.(pops := s.pops[i := s.pops[i].(pc := Callback)])
  {
    SlotAndRound(0, i);
    assert Slot(s, Pop(i)) == 0 && Expected16(0, Pop(i)) == 1;
    assert Enabled(s, Act(Pop(i), false, 0));
    s' := Next(s, Act(Pop(i), false, 0));
  }

  /** With one pop more than allowed in flight on a slot, two pops can be inside its callback at the same time. */
  lemma BoundIsTightForPops() returns (run: seq<State>, a: Id, b: Id)
    ensures IsRun(Init, Moves, run)
    ensures forall i | 0 <= i < |run| :: OnePopTooMany(run[i])
    ensures var last := run[|run| - 1];
      Has(last, a) && Has(last, b) && a != b && Slot(last, a) == Slot(last, b)
      && Inside(Get(last, a).pc) && Inside(Get(last, b).pc)
  {
    var draws := PopRun(IN_FLIGHT + 1);
    var s1 := EnterPop(Popping(IN_FLIGHT + 1), 0);
    var s2 := EnterPop(s1, IN_FLIGHT);
    a, b := Pop(0), Pop(IN_FLIGHT);
    run := draws + [s1, s2];
    forall i | 0 <= i < |run| ensures OnePopTooMany(run[i]) {
      if i < |draws| { assert run[i] == draws[i]; }
      FewTickets(run[i]);
    }
  }

  lemma FewTickets(s: State)
    requires |s.words| == 1 && |s.pushes| <= 1 && |s.pops| <= IN_FLIGHT + 1
    ensures OnePopTooMany(s)
  {
    BelowCard(InFlight(s.bits, s.pushes, 0), 1);
    BelowCard(InFlight(s.bits, s.pops, 0), IN_FLIGHT + 1);
  }
}
