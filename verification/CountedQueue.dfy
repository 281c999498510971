/** The lock-free queue with split reference counts of src/nonlock_free_queue.h, as a state machine over its atomic steps.

    `head` and `tail` carry an external count of the references taken through them; a node carries an internal count (30 bits)
    and the number of counted pointers that still lead to it (2 bits). A pointer that is taken down adds its external count,
    less two, to the internal count; a thread that is done with a node takes one off. The thread that leaves both fields
    of the word at zero deletes the node. */
module CountedQueue {
  import opened Links
  import opened Runs
  import opened Sums

  datatype CountedPtr = CountedPtr(external: int, ptr: Ptr)

  /** History: one of the two counted pointers to a node, through the tail and through its predecessor and then the head. */
  datatype Side =
    | Future(t: nat)      // not in place yet; for the tail, thread `t` will put it there
    | InPlace
    | Pending(t: nat)     // taken down by thread `t`, not yet added to the internal count
    | Freed

  datatype Node = Node(
    data: Ptr,            // null, or some value
    internal: nat,        // internal_count
    counters: nat,        // external_counters
    next: CountedPtr,
    deletes: nat,         // how often it has been deleted
    tailSide: Side,       // history
    headSide: Side,       // history
    pred: Ptr,            // history: the node whose `next` was set to this one
    debt: int,            // history: by how much the internal count falls short of what it should be
    brings: nat)          // history: the value of the push that made the node

  datatype Pc =
    | Idle
    // push
    | PushLoad(value: nat, mine: nat)                          // about to load the tail
    | PushInc(value: nat, mine: nat, was: CountedPtr)          // about to CAS the tail's external count one up
    | PushData(value: nat, mine: nat, was: CountedPtr)         // about to CAS its data from null to the value
    | PushRelease(value: nat, mine: nat, was: CountedPtr)      // lost; about to release the node
    | PushNext(mine: nat, dummy: nat)                          // won; about to store the next pointer
    | PushSwap(mine: nat, dummy: nat)                          // about to exchange the tail
    | PushFree(was: CountedPtr)                                 // about to add the external count of the old tail
    // pop
    | PopLoad                                                   // about to load the head
    | PopInc(was: CountedPtr)                                   // about to CAS its external count one up
    | PopCheck(was: CountedPtr)                                 // about to compare it with the tail
    | PopEmpty(node: nat)                                       // the queue is empty; about to release the node
    | PopRead(was: CountedPtr)                                  // about to read the next pointer
    | PopSwap(was: CountedPtr, next: CountedPtr)                // about to CAS the head
    | PopRetry(node: nat, now: CountedPtr)                      // lost; about to release the node
    | PopTake(was: CountedPtr)                                  // won; about to exchange the data
    | PopFree(was: CountedPtr, res: Ptr)                        // got `res`; about to add the external count of the old head

  datatype State = State(head: CountedPtr, tail: CountedPtr, nodes: seq<Node>, threads: seq<Pc>)

  datatype Step = Push(t: nat, value: nat) | Pop(t: nat) | Act(t: nat)

  const NO_NEXT: CountedPtr := CountedPtr(0, Null)

  function NewNode(t: nat, value: nat): Node {
    Node(Null, 0, 2, NO_NEXT, 0, Future(t), Future(0), Null, 0, value)
  }

  /** internal_count is a 30-bit field, external_counters a 2-bit field. */
  function Field30(x: int): nat { x % 0x4000_0000 }

  function Field2(x: int): nat { x % 4 }

  predicate Valid(s: State, p: Ptr) { p.At? && p.n < |s.nodes| }

  predicate Enabled(s: State, step: Step) {
    && step.t < |s.threads|
    && match step
       case Push(t, _) => s.threads[t].Idle?
       case Pop(t) => s.threads[t].Idle?
       case Act(t) =>
         match s.threads[t]
         case Idle => false
         case PushData(_, _, was) => Valid(s, was.ptr)
         case PushRelease(_, _, was) => Valid(s, was.ptr)
         case PushNext(mine, dummy) => dummy < |s.nodes| && mine < |s.nodes|
         case PushSwap(mine, dummy) => dummy < |s.nodes| && mine < |s.nodes| && Valid(s, s.tail.ptr)
         case PushFree(was) => Valid(s, was.ptr)
         case PopCheck(was) => true
         case PopEmpty(n) => n < |s.nodes|
         case PopRead(was) => Valid(s, was.ptr)                 // the assertion that the head is not null
         case PopSwap(was, next) => Valid(s, was.ptr) && (next.ptr.At? ==> Valid(s, next.ptr))
         case PopRetry(n, _) => n < |s.nodes|
         case PopTake(was) => Valid(s, was.ptr)
         case PopFree(was, _) => Valid(s, was.ptr)
         case _ => true
  }

  function Goto(s: State, t: nat, pc: Pc): State
    requires t < |s.threads|
  {
    s.(threads := s.threads[t := pc])
  }

  function SetNode(s: State, n: nat, node: Node): State
    requires n < |s.nodes|
  {
    s.(nodes := s.nodes[n := node])
  }

  function DeleteIfZero(node: Node): Node {
    if node.internal == 0 && node.counters == 0 then node.(deletes := node.deletes + 1) else node
  }

  /** release_ref */
  function Released(node: Node): Node { DeleteIfZero(node.(internal := Field30(node.internal - 1))) }

  /** free_external_counter */
  function CounterFreed(node: Node, external: int): Node {
    DeleteIfZero(node.(internal := Field30(node.internal + external - 2), counters := Field2(node.counters - 1)))
  }

  function Next(s: State, step: Step): State
    requires Enabled(s, step)
  {
    match step
    case Push(t, value) => Goto(s, t, PushLoad(value, |s.nodes|)).(nodes := s.nodes + [NewNode(t, value)])
    case Pop(t) => Goto(s, t, PopLoad)
    case Act(t) =>
      match s.threads[t]
      case Idle => s
      case PushLoad(value, mine) => Goto(s, t, PushInc(value, mine, s.tail))
      case PushInc(value, mine, was) =>
        if s.tail == was then
          var more := was.(external := was.external + 1);
          Goto(s, t, PushData(value, mine, more)).(tail := more)
        else
          Goto(s, t, PushInc(value, mine, s.tail))
      case PushData(value, mine, was) =>
        var n := was.ptr.n;
        if s.nodes[n].data == Null then
          Goto(SetNode(s, n, s.nodes[n].(data := At(value))), t, PushNext(mine, n))
        else
          Goto(s, t, PushRelease(value, mine, was))
      case PushRelease(value, mine, was) =>
        Goto(SetNode(s, was.ptr.n, Released(s.nodes[was.ptr.n])), t, PushInc(value, mine, was))
      case PushNext(mine, dummy) =>
        var s1 := SetNode(s, dummy, s.nodes[dummy].(next := CountedPtr(1, At(mine))));
        Goto(SetNode(s1, mine, s1.nodes[mine].(pred := At(dummy))), t, PushSwap(mine, dummy))
      case PushSwap(mine, dummy) =>
        Goto(Swapped(s, t, mine, dummy), t, PushFree(s.tail)).(tail := CountedPtr(1, At(mine)))
      case PushFree(was) =>
        var n := was.ptr.n;
        Goto(SetNode(s, n, CounterFreed(s.nodes[n].(tailSide := Freed), was.external)), t, Idle)
      case PopLoad => Goto(s, t, PopInc(s.head))
      case PopInc(was) =>
        if s.head == was then
          var more := was.(external := was.external + 1);
          Goto(s, t, PopCheck(more)).(head := more)
        else
          Goto(s, t, PopInc(s.head))
      case PopCheck(was) =>
        Goto(s, t, if was.ptr == s.tail.ptr && was.ptr.At? then PopEmpty(was.ptr.n) else PopRead(was))
      case PopEmpty(n) => Goto(SetNode(s, n, Released(s.nodes[n])), t, Idle)
      case PopRead(was) => Goto(s, t, PopSwap(was, s.nodes[was.ptr.n].next))
      case PopSwap(was, next) =>
        if s.head == was then
          var s1 := SetNode(s, was.ptr.n, s.nodes[was.ptr.n].(headSide := Pending(t)));
          var s2 := if next.ptr.At? then SetNode(s1, next.ptr.n, s1.nodes[next.ptr.n].(headSide := InPlace)) else s1;
          Goto(s2, t, PopTake(was)).(head := next)
        else
          Goto(s, t, PopRetry(was.ptr.n, s.head))
      case PopRetry(n, now) => Goto(SetNode(s, n, Released(s.nodes[n])), t, PopInc(now))
      case PopTake(was) =>
        Goto(SetNode(s, was.ptr.n, s.nodes[was.ptr.n].(data := Null)), t, PopFree(was, s.nodes[was.ptr.n].data))
      case PopFree(was, _) =>
        var n := was.ptr.n;
        Goto(SetNode(s, n, CounterFreed(s.nodes[n].(headSide := Freed), was.external)), t, Idle)
  }

  /** A push exchanges the tail although the tail no longer leads to the node whose data it has set. */
  predicate IsStale(s: State, step: Step) {
    step.Act? && step.t < |s.threads| && s.threads[step.t].PushSwap? && s.tail.ptr != At(s.threads[step.t].dummy)
  }

  /** The history of an exchange of the tail: its pointer is now pending with the thread. If the pointer is that of another node
      than the one the thread holds a reference on, that node is left one short, and the held one has one too many. */
  function Swapped(s: State, t: nat, mine: nat, dummy: nat): State
    requires dummy < |s.nodes| && mine < |s.nodes| && Valid(s, s.tail.ptr)
  {
    var e := s.tail.ptr.n;
    var s1 := SetNode(s, dummy, s.nodes[dummy].(debt := s.nodes[dummy].debt - 1));
    var s2 := SetNode(s1, e, s1.nodes[e].(debt := s1.nodes[e].debt + 1, tailSide := Pending(t)));
    SetNode(s2, mine, s2.nodes[mine].(tailSide := InPlace))
  }

  /** The constructor: one dummy node, and both pointers to it with external count 0. */
  ghost predicate Init(s: State) {
    && s.nodes == [Node(Null, 0, 2, NO_NEXT, 0, InPlace, InPlace, Null, 2, 0)]
    && s.head == s.tail == CountedPtr(0, At(0))
    && |s.threads| < 0x4000_0000
    && forall t | 0 <= t < |s.threads| :: s.threads[t] == Idle
  }

  ghost predicate Moves(s: State, s': State) { exists step :: Enabled(s, step) && s' == Next(s, step) }

  ghost predicate IsQueueRun(run: seq<State>) { IsRun(Init, Moves, run) }

  // ---------- Counting ----------

  /** The thread has a counted reference on node `n`. */
  predicate Holds(pc: Pc, n: nat) {
    match pc
    case PushData(_, _, was) => was.ptr == At(n)
    case PushRelease(_, _, was) => was.ptr == At(n)
    case PushNext(_, dummy) => dummy == n
    case PushSwap(_, dummy) => dummy == n
    case PushFree(was) => was.ptr == At(n)
    case PopCheck(was) => was.ptr == At(n)
    case PopEmpty(m) => m == n
    case PopRead(was) => was.ptr == At(n)
    case PopSwap(was, _) => was.ptr == At(n)
    case PopRetry(m, _) => m == n
    case PopTake(was) => was.ptr == At(n)
    case PopFree(was, _) => was.ptr == At(n)
    case _ => false
  }

  function HoldCount(n: nat): Pc -> int { (pc: Pc) => if Holds(pc, n) then 1 else 0 }

  /** A counted pointer that still leads to `n` contributes its external count, less one for the pointer itself. */
  function Excess(p: CountedPtr, n: nat): int { if p.ptr == At(n) then p.external - 1 else 0 }

  /** The same for a pointer that a thread has taken down and not yet added to the internal count. */
  function PendingExcess(n: nat): Pc -> int {
    (pc: Pc) => if pc.PushFree? || pc.PopTake? || pc.PopFree? then Excess(pc.was, n) else 0
  }

  ghost function Holders(s: State, n: nat): int { Sum(HoldCount(n), s.threads) }

  ghost function Uncollected(s: State, n: nat): int {
    Excess(s.head, n) + Excess(s.tail, n) + Sum(PendingExcess(n), s.threads)
  }

  function Open(side: Side): nat { if side.Freed? then 0 else 1 }

  /** What the internal count should be. */
  ghost function Balance(s: State, n: nat): int { Holders(s, n) - Uncollected(s, n) }

  // ---------- The invariant ----------

  /** The internal count is the number of references held, less those not yet collected from a pointer, less the debt. */
  ghost predicate CountInv(s: State, n: nat)
    requires n < |s.nodes|
  {
    s.nodes[n].internal == Field30(Balance(s, n) - s.nodes[n].debt)
  }

  /** Each of the two pointers to a node is counted until the thread that takes it down has added its external count. */
  ghost predicate SideInv(s: State, n: nat)
    requires n < |s.nodes|
  {
    var node := s.nodes[n];
    && node.counters == Open(node.tailSide) + Open(node.headSide)
    && (node.tailSide.InPlace? <==> s.tail.ptr == At(n))
    && (node.headSide.InPlace? <==> s.head.ptr == At(n))
    && (node.tailSide.Pending? ==> node.tailSide.t < |s.threads| && TakesTail(s.threads[node.tailSide.t], n))
    && (node.headSide.Pending? ==> node.headSide.t < |s.threads| && TakesHead(s.threads[node.headSide.t], n))
    && (node.deletes > 0 ==> node.counters == 0)
    && (node.counters == 0 && node.internal == 0 ==> node.deletes > 0)
  }

  predicate TakesTail(pc: Pc, n: nat) { pc.PushFree? && pc.was.ptr == At(n) }

  predicate TakesHead(pc: Pc, n: nat) { (pc.PopTake? || pc.PopFree?) && pc.was.ptr == At(n) }

  /** `next` was read from node `d`: while `d` can still be the head, the node it leads to has not been the head. */
  ghost predicate LinkInv(s: State, d: nat, next: CountedPtr)
    requires d < |s.nodes|
  {
    next.ptr.At? ==>
      && next.ptr.n < |s.nodes| && next.external == 1
      && s.nodes[next.ptr.n].pred == At(d)
      && (s.nodes[d].headSide.Future? || s.nodes[d].headSide.InPlace? ==> s.nodes[next.ptr.n].headSide.Future?)
  }

  predicate Making(pc: Pc) { pc.PushLoad? || pc.PushInc? || pc.PushData? || pc.PushRelease? || pc.PushNext? }

  /** The node a push will append is not linked to anything before the push has won. */
  ghost predicate MineInv(s: State, t: nat)
    requires t < |s.threads|
  {
    var pc := s.threads[t];
    && (Making(pc) || pc.PushSwap? ==> 0 < pc.mine < |s.nodes| && s.nodes[pc.mine].tailSide == Future(t))
    && (Making(pc) ==> s.nodes[pc.mine].headSide.Future? && s.nodes[pc.mine].pred == Null && s.nodes[pc.mine].debt == 0)
  }

  ghost predicate HoldsValid(s: State, t: nat)
    requires t < |s.threads|
  {
    forall n: nat | Holds(s.threads[t], n) :: n < |s.nodes|
  }

  /** A push only works on nodes that have been the tail; a pointer that was taken down is pending with its thread. */
  ghost predicate WasInv(s: State, t: nat)
    requires t < |s.threads|
  {
    var pc := s.threads[t];
    && (pc.PushData? || pc.PushRelease? ==> Valid(s, pc.was.ptr) && !s.nodes[pc.was.ptr.n].tailSide.Future?)
    && (pc.PushNext? || pc.PushSwap? ==> pc.dummy < |s.nodes| && !s.nodes[pc.dummy].tailSide.Future?)
    && (pc.PushFree? ==> Valid(s, pc.was.ptr) && s.nodes[pc.was.ptr.n].tailSide == Pending(t))
    && (pc.PopTake? || pc.PopFree? ==> Valid(s, pc.was.ptr) && s.nodes[pc.was.ptr.n].headSide == Pending(t))
  }

  ghost predicate ReadInv(s: State, t: nat)
    requires t < |s.threads|
  {
    s.threads[t].PopSwap? ==> Valid(s, s.threads[t].was.ptr) && LinkInv(s, s.threads[t].was.ptr.n, s.threads[t].next)
  }

  ghost predicate ThreadInv(s: State, t: nat)
    requires t < |s.threads|
  {
    MineInv(s, t) && HoldsValid(s, t) && WasInv(s, t) && ReadInv(s, t)
  }

  /** No other node has been the tail. */
  ghost predicate OnlyFirst(s: State) { forall n | 0 < n < |s.nodes| :: s.nodes[n].tailSide.Future? }

  /** Until the tail leaves the first node, no other node has been the tail. */
  ghost predicate FirstTail(s: State) {
    && |s.nodes| > 0
    && s.nodes[0].pred == Null
    && !s.nodes[0].headSide.Future?
    && (s.tail.ptr == At(0) ==> OnlyFirst(s))
  }

  ghost predicate Pointers(s: State) { Valid(s, s.tail.ptr) && (s.head.ptr.At? ==> Valid(s, s.head.ptr)) }

  ghost predicate Nodes(s: State) {
    && (forall n | 0 <= n < |s.nodes| :: CountInv(s, n))
    && (forall n | 0 <= n < |s.nodes| :: SideInv(s, n))
    && (forall n | 0 <= n < |s.nodes| :: LinkInv(s, n, s.nodes[n].next))
  }

  ghost predicate Inv(s: State) {
    && |s.threads| < 0x4000_0000
    && Pointers(s) && FirstTail(s) && Nodes(s)
    && (forall t | 0 <= t < |s.threads| :: ThreadInv(s, t))
  }

  // ---------- Preservation ----------

  /** What the program counter of one thread and the two shared pointers add to the balance of `n`. */
  function Share(s: State, pc: Pc, n: nat): int {
    HoldCount(n)(pc) - PendingExcess(n)(pc) - Excess(s.head, n) - Excess(s.tail, n)
  }

  lemma BalanceAfter(s: State, s': State, t: nat, n: nat)
    requires t < |s.threads| && t < |s'.threads| && s'.threads == s.threads[t := s'.threads[t]]
    ensures Balance(s', n) - Balance(s, n) == Share(s', s'.threads[t], n) - Share(s, s.threads[t], n)
  {
    SumUpdate(HoldCount(n), s.threads, t, s'.threads[t]);
    SumUpdate(PendingExcess(n), s.threads, t, s'.threads[t]);
  }

  /** Wrapping in between does not change the count. */
  lemma WrapOnce(x: int, k: int)
    ensures Field30(Field30(x) + k) == Field30(x + k)
  {
  }

  /** Steps that touch no count of a node. */
  predicate Counts(pc: Pc) {
    pc.PushRelease? || pc.PushFree? || pc.PopEmpty? || pc.PopRetry? || pc.PopFree?
  }

  lemma MoveKeepsCount(s: State, t: nat, n: nat)
    requires Enabled(s, Act(t)) && n < |s.nodes| && Pointers(s) && CountInv(s, n) && ThreadInv(s, t)
    requires !Counts(s.threads[t]) && !s.threads[t].PushSwap?
    ensures n < |Next(s, Act(t)).nodes| && CountInv(Next(s, Act(t)), n)
  {
    var s' := Next(s, Act(t));
    BalanceAfter(s, s', t, n);
    MoveKeepsFields(s, t, n);
    MoveKeepsShare(s, t, n);
  }

  lemma MoveKeepsFields(s: State, t: nat, n: nat)
    requires Enabled(s, Act(t)) && n < |s.nodes| && !Counts(s.threads[t]) && !s.threads[t].PushSwap?
    ensures |Next(s, Act(t)).nodes| == |s.nodes|
    ensures Next(s, Act(t)).nodes[n].internal == s.nodes[n].internal
    ensures Next(s, Act(t)).nodes[n].debt == s.nodes[n].debt
  {
  }

  lemma MoveKeepsShare(s: State, t: nat, n: nat)
    requires Enabled(s, Act(t)) && Pointers(s) && ReadInv(s, t) && !Counts(s.threads[t]) && !s.threads[t].PushSwap?
    ensures Share(Next(s, Act(t)), Next(s, Act(t)).threads[t], n) == Share(s, s.threads[t], n)
  {
  }

  lemma SwapKeepsCount(s: State, t: nat, n: nat)
    requires Enabled(s, Act(t)) && n < |s.nodes| && Pointers(s) && CountInv(s, n) && ThreadInv(s, t)
    requires s.threads[t].PushSwap?
    ensures n < |Next(s, Act(t)).nodes| && CountInv(Next(s, Act(t)), n)
  {
    var s' := Next(s, Act(t));
    BalanceAfter(s, s', t, n);
    assert s'.nodes[n].internal == s.nodes[n].internal;
    assert Share(s', s'.threads[t], n) - Share(s, s.threads[t], n) == s'.nodes[n].debt - s.nodes[n].debt;
  }

  lemma CountKeepsCount(s: State, t: nat, n: nat)
    requires Enabled(s, Act(t)) && n < |s.nodes| && Pointers(s) && CountInv(s, n) && ThreadInv(s, t)
    requires Counts(s.threads[t])
    ensures n < |Next(s, Act(t)).nodes| && CountInv(Next(s, Act(t)), n)
  {
    var s' := Next(s, Act(t));
    BalanceAfter(s, s', t, n);
    var k := Share(s', s'.threads[t], n) - Share(s, s.threads[t], n);
    WrapOnce(Balance(s, n) - s.nodes[n].debt, k);
    assert s'.nodes[n].debt == s.nodes[n].debt;
    assert s'.nodes[n].internal == if s'.nodes[n] == s.nodes[n] then s.nodes[n].internal else Field30(s.nodes[n].internal + k);
  }

  lemma MoveKeepsSides(s: State, t: nat, n: nat)
    requires Enabled(s, Act(t)) && n < |s.nodes| && Pointers(s) && SideInv(s, n) && ThreadInv(s, t)
    requires !Counts(s.threads[t]) && !s.threads[t].PushSwap? && !s.threads[t].PopSwap?
    ensures n < |Next(s, Act(t)).nodes| && SideInv(Next(s, Act(t)), n)
  {
    var s' := Next(s, Act(t));
    assert s'.nodes[n].tailSide == s.nodes[n].tailSide && s'.nodes[n].headSide == s.nodes[n].headSide;
    assert s'.tail.ptr == s.tail.ptr && s'.head.ptr == s.head.ptr;
  }

  lemma SwapKeepsSides(s: State, t: nat, n: nat)
    requires Enabled(s, Act(t)) && n < |s.nodes| && Pointers(s) && SideInv(s, n) && ThreadInv(s, t)
    requires SideInv(s, s.tail.ptr.n) && s.threads[t].PushSwap?
    ensures n < |Next(s, Act(t)).nodes| && SideInv(Next(s, Act(t)), n)
  {
  }

  lemma HeadSwapKeepsSides(s: State, t: nat, n: nat)
    requires Enabled(s, Act(t)) && n < |s.nodes| && Pointers(s) && SideInv(s, n) && ThreadInv(s, t)
    requires (s.head.ptr.At? ==> SideInv(s, s.head.ptr.n)) && s.threads[t].PopSwap?
    ensures n < |Next(s, Act(t)).nodes| && SideInv(Next(s, Act(t)), n)
  {
  }

  lemma CountKeepsSides(s: State, t: nat, n: nat)
    requires Enabled(s, Act(t)) && n < |s.nodes| && Pointers(s) && SideInv(s, n) && ThreadInv(s, t)
    requires Counts(s.threads[t])
    ensures n < |Next(s, Act(t)).nodes| && SideInv(Next(s, Act(t)), n)
  {
    var s' := Next(s, Act(t));
    assert s'.tail.ptr == s.tail.ptr && s'.head.ptr == s.head.ptr;
    if s.threads[t].PushFree? || s.threads[t].PopFree? {
      FreeKeepsSides(s, t, n);
    }
  }

  lemma FreeKeepsSides(s: State, t: nat, n: nat)
    requires Enabled(s, Act(t)) && n < |s.nodes| && Pointers(s) && SideInv(s, n) && ThreadInv(s, t)
    requires s.threads[t].PushFree? || s.threads[t].PopFree?
    ensures n < |Next(s, Act(t)).nodes| && SideInv(Next(s, Act(t)), n)
  {
  }

  /** Only appending a node and taking down the head touch what the links depend on. */
  lemma OtherActKeepsLinks(s: State, t: nat, d: nat, next: CountedPtr)
    requires Enabled(s, Act(t)) && d < |s.nodes| && LinkInv(s, d, next) && WasInv(s, t)
    requires !s.threads[t].PushNext? && !s.threads[t].PopSwap?
    ensures d < |Next(s, Act(t)).nodes| && LinkInv(Next(s, Act(t)), d, next)
  {
  }

  lemma AppendKeepsLinks(s: State, t: nat, d: nat, next: CountedPtr)
    requires Enabled(s, Act(t)) && d < |s.nodes| && LinkInv(s, d, next) && MineInv(s, t) && s.threads[t].PushNext?
    ensures d < |Next(s, Act(t)).nodes| && LinkInv(Next(s, Act(t)), d, next)
  {
  }

  lemma TakeKeepsLinks(s: State, t: nat, d: nat, next: CountedPtr)
    requires Enabled(s, Act(t)) && d < |s.nodes| && Pointers(s) && LinkInv(s, d, next) && ThreadInv(s, t) && s.threads[t].PopSwap?
    requires s.head.ptr.At? ==> SideInv(s, s.head.ptr.n)
    ensures d < |Next(s, Act(t)).nodes| && LinkInv(Next(s, Act(t)), d, next)
  {
  }

  lemma ActKeepsLinks(s: State, t: nat, d: nat, next: CountedPtr)
    requires Enabled(s, Act(t)) && d < |s.nodes| && Pointers(s) && LinkInv(s, d, next) && ThreadInv(s, t)
    requires s.head.ptr.At? ==> SideInv(s, s.head.ptr.n)
    ensures d < |Next(s, Act(t)).nodes| && LinkInv(Next(s, Act(t)), d, next)
  {
    if s.threads[t].PushNext? { AppendKeepsLinks(s, t, d, next); }
    else if s.threads[t].PopSwap? { TakeKeepsLinks(s, t, d, next); }
    else { OtherActKeepsLinks(s, t, d, next); }
  }

  lemma ActKeepsHolds(s: State, t: nat, u: nat)
    requires Enabled(s, Act(t)) && u < |s.threads| && Pointers(s) && HoldsValid(s, u)
    ensures u < |Next(s, Act(t)).threads| && HoldsValid(Next(s, Act(t)), u)
  {
    var s' := Next(s, Act(t));
    forall n: nat | Holds(s'.threads[u], n) ensures n < |s.nodes| {
      assert Holds(s.threads[u], n) || s.tail.ptr == At(n) || s.head.ptr == At(n);
    }
  }

  lemma OwnActKeepsMine(s: State, t: nat)
    requires Enabled(s, Act(t)) && MineInv(s, t)
    ensures MineInv(Next(s, Act(t)), t)
  {
  }

  lemma OtherActKeepsMine(s: State, t: nat, u: nat)
    requires Enabled(s, Act(t)) && u < |s.threads| && u != t && Pointers(s) && MineInv(s, t) && WasInv(s, t) && ReadInv(s, t)
    requires MineInv(s, u) && SideInv(s, s.tail.ptr.n) && (s.head.ptr.At? ==> SideInv(s, s.head.ptr.n))
    ensures u < |Next(s, Act(t)).threads| && MineInv(Next(s, Act(t)), u)
  {
  }

  lemma ActKeepsMine(s: State, t: nat, u: nat)
    requires Enabled(s, Act(t)) && u < |s.threads| && Pointers(s) && MineInv(s, t) && WasInv(s, t) && ReadInv(s, t)
    requires MineInv(s, u) && SideInv(s, s.tail.ptr.n) && (s.head.ptr.At? ==> SideInv(s, s.head.ptr.n))
    ensures u < |Next(s, Act(t)).threads| && MineInv(Next(s, Act(t)), u)
  {
    if u == t { OwnActKeepsMine(s, t); } else { OtherActKeepsMine(s, t, u); }
  }

  lemma OwnActKeepsWas(s: State, t: nat)
    requires Enabled(s, Act(t)) && Pointers(s) && WasInv(s, t) && MineInv(s, t) && ReadInv(s, t)
    requires SideInv(s, s.tail.ptr.n) && (s.head.ptr.At? ==> SideInv(s, s.head.ptr.n))
    ensures WasInv(Next(s, Act(t)), t)
  {
  }

  lemma OtherActKeepsWas(s: State, t: nat, u: nat)
    requires Enabled(s, Act(t)) && u < |s.threads| && u != t && Pointers(s) && WasInv(s, t) && WasInv(s, u)
    requires MineInv(s, t) && ReadInv(s, t)
    requires SideInv(s, s.tail.ptr.n) && (s.head.ptr.At? ==> SideInv(s, s.head.ptr.n))
    ensures u < |Next(s, Act(t)).threads| && WasInv(Next(s, Act(t)), u)
  {
    var pc := s.threads[u];
    if pc.PushNext? || pc.PushSwap? {
      OtherActKeepsSides(s, t, u, pc.dummy);
    } else if pc.PushData? || pc.PushRelease? || pc.PushFree? || pc.PopTake? || pc.PopFree? {
      OtherActKeepsSides(s, t, u, pc.was.ptr.n);
    }
  }

  lemma OtherActKeepsSides(s: State, t: nat, u: nat, n: nat)
    requires Enabled(s, Act(t)) && u != t && n < |s.nodes| && Pointers(s) && WasInv(s, t) && MineInv(s, t) && ReadInv(s, t)
    requires SideInv(s, s.tail.ptr.n) && (s.head.ptr.At? ==> SideInv(s, s.head.ptr.n))
    ensures n < |Next(s, Act(t)).nodes|
    ensures !s.nodes[n].tailSide.Future? ==> !Next(s, Act(t)).nodes[n].tailSide.Future?
    ensures s.nodes[n].tailSide == Pending(u) ==> Next(s, Act(t)).nodes[n].tailSide == Pending(u)
    ensures s.nodes[n].headSide == Pending(u) ==> Next(s, Act(t)).nodes[n].headSide == Pending(u)
  {
  }

  lemma ActKeepsThread(s: State, t: nat, u: nat)
    requires Enabled(s, Act(t)) && u < |s.threads| && Pointers(s) && ThreadInv(s, t) && ThreadInv(s, u) && Nodes(s)
    ensures u < |Next(s, Act(t)).threads| && ThreadInv(Next(s, Act(t)), u)
  {
    assert SideInv(s, s.tail.ptr.n);
    assert s.head.ptr.At? ==> SideInv(s, s.head.ptr.n);
    ActKeepsHolds(s, t, u);
    ActKeepsMine(s, t, u);
    if u == t { OwnActKeepsWas(s, t); } else { OtherActKeepsWas(s, t, u); }
    ActKeepsRead(s, t, u);
  }

  lemma ActKeepsRead(s: State, t: nat, u: nat)
    requires Enabled(s, Act(t)) && u < |s.threads| && Pointers(s) && ThreadInv(s, t) && ReadInv(s, u) && Nodes(s)
    ensures u < |Next(s, Act(t)).threads| && ReadInv(Next(s, Act(t)), u)
  {
    if u != t && s.threads[u].PopSwap? {
      ActKeepsLinks(s, t, s.threads[u].was.ptr.n, s.threads[u].next);
    } else if u == t && s.threads[t].PopRead? {
      var d := s.threads[t].was.ptr.n;
      assert LinkInv(s, d, s.nodes[d].next);
    }
  }

  lemma ActKeepsPointers(s: State, t: nat)
    requires Enabled(s, Act(t)) && Pointers(s) && MineInv(s, t) && ReadInv(s, t)
    ensures Pointers(Next(s, Act(t)))
  {
  }

  lemma ActKeepsFirstNode(s: State, t: nat)
    requires Enabled(s, Act(t)) && Pointers(s) && MineInv(s, t) && |s.nodes| > 0
    requires s.nodes[0].pred == Null && !s.nodes[0].headSide.Future?
    ensures var s' := Next(s, Act(t)); |s'.nodes| > 0 && s'.nodes[0].pred == Null && !s'.nodes[0].headSide.Future?
  {
  }

  lemma ActKeepsFirstTail(s: State, t: nat)
    requires Enabled(s, Act(t)) && Pointers(s) && MineInv(s, t) && WasInv(s, t)
    requires s.tail.ptr == At(0) ==> OnlyFirst(s)
    ensures Next(s, Act(t)).tail.ptr == At(0) ==> OnlyFirst(Next(s, Act(t)))
  {
    var s' := Next(s, Act(t));
    if s'.tail.ptr == At(0) {
      assert s.tail.ptr == At(0);
      forall n | 0 < n < |s'.nodes| ensures s'.nodes[n].tailSide.Future? { assert s.nodes[n].tailSide.Future?; }
    }
  }

  lemma ActKeepsNodes(s: State, t: nat)
    requires Enabled(s, Act(t)) && Inv(s)
    ensures Nodes(Next(s, Act(t)))
  {
    var s' := Next(s, Act(t));
    var pc := s.threads[t];
    assert SideInv(s, s.tail.ptr.n) && (s.head.ptr.At? ==> SideInv(s, s.head.ptr.n));
    assert |s'.nodes| == |s.nodes|;
    forall n | 0 <= n < |s.nodes| ensures CountInv(s', n) {
      assert CountInv(s, n);
      if Counts(pc) { CountKeepsCount(s, t, n); } else if pc.PushSwap? { SwapKeepsCount(s, t, n); } else { MoveKeepsCount(s, t, n); }
    }
    forall n | 0 <= n < |s.nodes| ensures SideInv(s', n) {
      assert SideInv(s, n);
      if Counts(pc) { CountKeepsSides(s, t, n); }
      else if pc.PushSwap? { SwapKeepsSides(s, t, n); }
      else if pc.PopSwap? { HeadSwapKeepsSides(s, t, n); }
      else { MoveKeepsSides(s, t, n); }
    }
    forall n | 0 <= n < |s.nodes| ensures LinkInv(s', n, s'.nodes[n].next) { ActKeepsNext(s, t, n); }
  }

  lemma ActKeepsNext(s: State, t: nat, n: nat)
    requires Enabled(s, Act(t)) && Inv(s) && n < |s.nodes|
    ensures n < |Next(s, Act(t)).nodes| && LinkInv(Next(s, Act(t)), n, Next(s, Act(t)).nodes[n].next)
  {
    assert LinkInv(s, n, s.nodes[n].next) && ThreadInv(s, t);
    assert s.head.ptr.At? ==> SideInv(s, s.head.ptr.n);
    if s.threads[t].PushNext? && s.threads[t].dummy == n {
      LinkKeepsNext(s, t);
    } else {
      ActKeepsLinks(s, t, n, s.nodes[n].next);
      assert Next(s, Act(t)).nodes[n].next == s.nodes[n].next;
    }
  }

  lemma LinkKeepsNext(s: State, t: nat)
    requires Enabled(s, Act(t)) && MineInv(s, t) && WasInv(s, t) && s.threads[t].PushNext?
    ensures var s', d := Next(s, Act(t)), s.threads[t].dummy; d < |s'.nodes| && LinkInv(s', d, s'.nodes[d].next)
  {
  }

  lemma ActKeepsInv(s: State, t: nat)
    requires Enabled(s, Act(t)) && Inv(s)
    ensures Inv(Next(s, Act(t)))
  {
    assert ThreadInv(s, t);
    ActKeepsPointers(s, t);
    ActKeepsFirstNode(s, t);
    ActKeepsFirstTail(s, t);
    ActKeepsNodes(s, t);
    forall u | 0 <= u < |s.threads| ensures ThreadInv(Next(s, Act(t)), u) { ActKeepsThread(s, t, u); }
  }

  // ---------- Starting an operation ----------

  /** A push starts with a node of its own; a pop starts with no change at all. */
  lemma StartKeepsInv(s: State, step: Step)
    requires Enabled(s, step) && !step.Act? && Inv(s)
    ensures Inv(Next(s, step))
  {
    var s' := Next(s, step);
    forall n | 0 <= n < |s'.nodes| ensures CountInv(s', n) && SideInv(s', n) && LinkInv(s', n, s'.nodes[n].next) {
      if n < |s.nodes| { StartKeepsNode(s, step, n); } else { NewNodeIsUnknown(s, step); }
    }
    forall u | 0 <= u < |s'.threads| ensures ThreadInv(s', u) {
      assert ThreadInv(s, u);
      forall n: nat | Holds(s'.threads[u], n) ensures n < |s'.nodes| { assert Holds(s.threads[u], n); }
    }
  }

  lemma StartKeepsNode(s: State, step: Step, n: nat)
    requires Enabled(s, step) && !step.Act? && Inv(s) && n < |s.nodes|
    ensures var s' := Next(s, step); CountInv(s', n) && SideInv(s', n) && LinkInv(s', n, s'.nodes[n].next)
  {
    assert CountInv(s, n) && SideInv(s, n) && LinkInv(s, n, s.nodes[n].next);
    BalanceAfter(s, Next(s, step), step.t, n);
  }

  lemma NewNodeIsUnknown(s: State, step: Step)
    requires Enabled(s, step) && step.Push? && Inv(s)
    ensures var s', n := Next(s, step), |s.nodes|; CountInv(s', n) && SideInv(s', n) && LinkInv(s', n, s'.nodes[n].next)
  {
    var n := |s.nodes|;
    forall u | 0 <= u < |s.threads| ensures HoldCount(n)(s.threads[u]) == 0 && PendingExcess(n)(s.threads[u]) == 0 {
      assert ThreadInv(s, u);
    }
    SumIsZero(HoldCount(n), s.threads);
    SumIsZero(PendingExcess(n), s.threads);
    BalanceAfter(s, Next(s, step), step.t, n);
  }

  lemma StepKeepsInv(s: State, step: Step)
    requires Enabled(s, step) && Inv(s)
    ensures Inv(Next(s, step))
  {
    if step.Act? { ActKeepsInv(s, step.t); } else { StartKeepsInv(s, step); }
  }

  lemma InitInv(s: State)
    requires Init(s)
    ensures Inv(s)
  {
    SumIsZero(HoldCount(0), s.threads);
    SumIsZero(PendingExcess(0), s.threads);
    assert CountInv(s, 0);
  }

  lemma RunKeepsInv(run: seq<State>, i: nat)
    requires IsQueueRun(run) && i < |run|
    ensures Inv(run[i])
  {
    forall s | Init(s) ensures Inv(s) { InitInv(s); }
    forall s, s' | Inv(s) && Moves(s, s') ensures Inv(s') {
      var step :| Enabled(s, step) && s' == Next(s, step);
      StepKeepsInv(s, step);
    }
    InvariantOfRun(Init, Moves, Inv, run);
  }

  // ---------- When a node is deleted ----------

  /** Once both counted pointers to a node are gone, no external count is left to collect. */
  lemma NothingToCollect(s: State, n: nat)
    requires Inv(s) && n < |s.nodes| && s.nodes[n].counters == 0
    ensures Uncollected(s, n) == 0
  {
    assert SideInv(s, n);
    forall u | 0 <= u < |s.threads| ensures PendingExcess(n)(s.threads[u]) == 0 { assert ThreadInv(s, u); }
    SumIsZero(PendingExcess(n), s.threads);
  }

  lemma HoldersAreFew(s: State, n: nat)
    requires |s.threads| < 0x4000_0000
    ensures 0 <= Holders(s, n) < 0x4000_0000
    ensures Holders(s, n) == 0 <==> forall u | 0 <= u < |s.threads| :: !Holds(s.threads[u], n)
  {
    SumBounds(HoldCount(n), s.threads, 0, 1);
    SumIsZero(HoldCount(n), s.threads);
    assert forall u | 0 <= u < |s.threads| :: (HoldCount(n)(s.threads[u]) == 0 <==> !Holds(s.threads[u], n));
  }

  /** A step that changes the count word of a node deletes the node exactly when both counted pointers are gone and the number
      of threads still holding it equals its debt, modulo the width of the field. */
  lemma DeletesWhenHoldersMatchDebt(s: State, t: nat, n: nat)
    requires Inv(s) && Enabled(s, Act(t)) && Counts(s.threads[t]) && Holds(s.threads[t], n)
    ensures n < |s.nodes| == |Next(s, Act(t)).nodes|
    ensures var s' := Next(s, Act(t)); var node := s'.nodes[n];
      node.deletes == s.nodes[n].deletes +
        (if node.counters == 0 && Field30(Holders(s', n) - node.debt) == 0 then 1 else 0)
  {
    assert ThreadInv(s, t);
    var s' := Next(s, Act(t));
    ActKeepsInv(s, t);
    assert CountInv(s', n);
    if s'.nodes[n].counters == 0 { NothingToCollect(s', n); }
  }

  /** The count word of a node made by a push is the number of references held, less those that a pointer still has to hand over;
      and the node is deleted once, when both pointers are gone and nobody holds it. */
  ghost predicate NodeIsClean(s: State, n: nat)
    requires n < |s.nodes|
  {
    var node := s.nodes[n];
    && node.internal == Field30(Balance(s, n))
    && node.deletes == (if node.counters == 0 && Holders(s, n) == 0 then 1 else 0)
  }

  /** The first node's count word is two short: the constructor gives its two pointers an external count of 0 instead of 1. */
  ghost predicate Clean(s: State) {
    && |s.nodes| > 0 && s.nodes[0].internal == Field30(Balance(s, 0) - 2)
    && forall n | 0 < n < |s.nodes| :: NodeIsClean(s, n)
  }

  /** The same said of the history: nothing is owed to a pushed node. */
  ghost predicate NodeIsSettled(s: State, n: nat)
    requires n < |s.nodes|
  {
    var node := s.nodes[n];
    && node.debt == 0
    && node.deletes == (if node.counters == 0 && Holders(s, n) == 0 then 1 else 0)
  }

  ghost predicate Settled(s: State) {
    && |s.nodes| > 0 && s.nodes[0].debt == 2
    && forall n | 0 < n < |s.nodes| :: NodeIsSettled(s, n)
  }

  lemma SettledIsClean(s: State)
    requires Inv(s) && Settled(s)
    ensures Clean(s)
  {
    assert CountInv(s, 0);
    forall n | 0 < n < |s.nodes| ensures NodeIsClean(s, n) { assert CountInv(s, n) && NodeIsSettled(s, n); }
  }

  lemma HoldersAfter(s: State, s': State, t: nat, n: nat)
    requires t < |s.threads| && t < |s'.threads| && s'.threads == s.threads[t := s'.threads[t]]
    ensures Holders(s', n) - Holders(s, n) == HoldCount(n)(s'.threads[t]) - HoldCount(n)(s.threads[t])
  {
    SumUpdate(HoldCount(n), s.threads, t, s'.threads[t]);
  }

  lemma ActKeepsNodeSettled(s: State, t: nat, n: nat)
    requires Inv(s) && Enabled(s, Act(t)) && 0 < n < |s.nodes| && NodeIsSettled(s, n) && !IsStale(s, Act(t))
    ensures n < |Next(s, Act(t)).nodes| && NodeIsSettled(Next(s, Act(t)), n)
  {
    var s' := Next(s, Act(t));
    HoldersAfter(s, s', t, n);
    HoldersAreFew(s, n);
    HoldersAreFew(s', n);
    assert ThreadInv(s, t) && SideInv(s, n);
    if Counts(s.threads[t]) && Holds(s.threads[t], n) {
      CountingKeepsDebt(s, t, n);
      DeletesWhenHoldersMatchDebt(s, t, n);
    } else {
      OtherStepKeepsCounts(s, t, n);
      if s.nodes[n].counters == 0 { OtherStepKeepsHolds(s, t, n); }
    }
  }

  lemma CountingKeepsDebt(s: State, t: nat, n: nat)
    requires Enabled(s, Act(t)) && n < |s.nodes| && Counts(s.threads[t])
    ensures |Next(s, Act(t)).nodes| == |s.nodes| && Next(s, Act(t)).nodes[n].debt == s.nodes[n].debt
  {
  }

  /** Any other step leaves the count word alone ... */
  lemma OtherStepKeepsCounts(s: State, t: nat, n: nat)
    requires Enabled(s, Act(t)) && n < |s.nodes| && !IsStale(s, Act(t)) && ThreadInv(s, t)
    requires !(Counts(s.threads[t]) && Holds(s.threads[t], n))
    ensures n < |Next(s, Act(t)).nodes|
    ensures Next(s, Act(t)).nodes[n].counters == s.nodes[n].counters
    ensures Next(s, Act(t)).nodes[n].deletes == s.nodes[n].deletes
    ensures Next(s, Act(t)).nodes[n].debt == s.nodes[n].debt
  {
  }

  /** ... and takes new references only through a pointer that is still counted. */
  lemma OtherStepKeepsHolds(s: State, t: nat, n: nat)
    requires Enabled(s, Act(t)) && n < |s.nodes| && !IsStale(s, Act(t)) && SideInv(s, n)
    requires !(Counts(s.threads[t]) && Holds(s.threads[t], n))
    requires s.nodes[n].counters == 0
    ensures Holds(Next(s, Act(t)).threads[t], n) <==> Holds(s.threads[t], n)
  {
  }

  lemma ActKeepsFirstDebt(s: State, t: nat)
    requires Inv(s) && Enabled(s, Act(t)) && !IsStale(s, Act(t))
    ensures |Next(s, Act(t)).nodes| > 0 && Next(s, Act(t)).nodes[0].debt == s.nodes[0].debt
  {
    assert ThreadInv(s, t);
    if Counts(s.threads[t]) && Holds(s.threads[t], 0) { CountingKeepsDebt(s, t, 0); } else { OtherStepKeepsCounts(s, t, 0); }
  }

  lemma StepKeepsSettled(s: State, step: Step)
    requires Inv(s) && Enabled(s, step) && Settled(s) && !IsStale(s, step)
    ensures Settled(Next(s, step))
  {
    var s' := Next(s, step);
    StepKeepsInv(s, step);
    if step.Act? { ActKeepsFirstDebt(s, step.t); }
    forall n | 0 < n < |s'.nodes| ensures NodeIsSettled(s', n) {
      if n < |s.nodes| {
        assert NodeIsSettled(s, n);
        if step.Act? { ActKeepsNodeSettled(s, step.t, n); } else { HoldersAfter(s, s', step.t, n); }
      }
    }
  }

  /** An exchange of the tail that is stale leaves the count word of a pushed node one short. */
  lemma StaleStepIsNotClean(s: State, step: Step)
    requires Inv(s) && Enabled(s, step) && Settled(s) && IsStale(s, step)
    ensures !Clean(Next(s, step))
  {
    var s', e := Next(s, step), s.tail.ptr.n;
    assert ThreadInv(s, step.t) && SideInv(s, e);
    assert e != 0;
    assert NodeIsSettled(s, e);
    StepKeepsInv(s, step);
    assert CountInv(s', e) && s'.nodes[e].debt == 1;
    assert !NodeIsClean(s', e);
  }

  ghost predicate Takes(s: State, step: Step, s': State) { Enabled(s, step) && s' == Next(s, step) }

  /** The steps of a run. */
  ghost predicate IsStepRun(run: seq<State>, steps: seq<Step>) { Follows(Init, Takes, run, steps) }

  ghost predicate NeverStale(run: seq<State>, steps: seq<Step>)
    requires |run| == |steps| + 1
  {
    forall i | 0 <= i < |steps| :: !IsStale(run[i], steps[i])
  }

  lemma StepsMakeRun(run: seq<State>, steps: seq<Step>)
    requires IsStepRun(run, steps)
    ensures IsQueueRun(run)
  {
    FollowsIsRun(Init, Takes, Moves, run, steps);
  }

  ghost predicate AlwaysClean(run: seq<State>) { forall i | 0 <= i < |run| :: Clean(run[i]) }

  /** As long as no exchange has been stale, nothing is owed. */
  lemma {:induction false} SettledWhileNotStale(run: seq<State>, steps: seq<Step>, i: nat)
    requires IsStepRun(run, steps) && i < |run| && forall k | 0 <= k < i :: !IsStale(run[k], steps[k])
    ensures Inv(run[i]) && Settled(run[i])
  {
    StepsMakeRun(run, steps);
    RunKeepsInv(run, i);
    if i > 0 {
      SettledWhileNotStale(run, steps, i - 1);
      assert Takes(run[i - 1], steps[i - 1], run[i - 1 + 1]);
      StepKeepsSettled(run[i - 1], steps[i - 1]);
    }
  }

  lemma FirstStale(run: seq<State>, steps: seq<Step>) returns (i: nat)
    requires |run| == |steps| + 1 && !NeverStale(run, steps)
    ensures i < |steps| && IsStale(run[i], steps[i]) && forall k | 0 <= k < i :: !IsStale(run[k], steps[k])
  {
    i := 0;
    while !IsStale(run[i], steps[i])
      invariant i < |steps| && forall k | 0 <= k < i :: !IsStale(run[k], steps[k])
      decreases |steps| - i
    {
      i := i + 1;
    }
  }

  /** In every state of a run the count word of every pushed node says how many references there are, and the node is deleted
      exactly when both pointers are gone and nobody holds it, and never twice - if and only if no push of the run exchanges the tail
      after it has moved on. */
  lemma CleanIffNeverStale(run: seq<State>, steps: seq<Step>)
    requires IsStepRun(run, steps)
    ensures AlwaysClean(run) <==> NeverStale(run, steps)
  {
    if NeverStale(run, steps) {
      forall i | 0 <= i < |run| ensures Clean(run[i]) {
        SettledWhileNotStale(run, steps, i);
        SettledIsClean(run[i]);
      }
    } else {
      var i := FirstStale(run, steps);
      SettledWhileNotStale(run, steps, i);
      assert Takes(run[i], steps[i], run[i + 1]);
      StaleStepIsNotClean(run[i], steps[i]);
    }
  }

  /** In a run without a stale exchange a pushed node is never deleted while a thread holds a reference on it, ... */
  lemma HeldNodeIsNotDeleted(run: seq<State>, steps: seq<Step>, i: nat, n: nat, u: nat)
    requires IsStepRun(run, steps) && NeverStale(run, steps) && i < |run|
    requires 0 < n < |run[i].nodes| && u < |run[i].threads| && Holds(run[i].threads[u], n)
    ensures run[i].nodes[n].deletes == 0
  {
    CleanIffNeverStale(run, steps);
    StepsMakeRun(run, steps);
    RunKeepsInv(run, i);
    assert Clean(run[i]) && NodeIsClean(run[i], n);
    HoldersAreFew(run[i], n);
  }

  /** ... and its memory is given back, once, when the last of them lets go after both pointers are gone. */
  lemma LastHolderDeletes(run: seq<State>, steps: seq<Step>, i: nat, n: nat)
    requires IsStepRun(run, steps) && NeverStale(run, steps) && i < |run| && 0 < n < |run[i].nodes|
    requires run[i].nodes[n].counters == 0 && forall u | 0 <= u < |run[i].threads| :: !Holds(run[i].threads[u], n)
    ensures run[i].nodes[n].deletes == 1
  {
    CleanIffNeverStale(run, steps);
    StepsMakeRun(run, steps);
    RunKeepsInv(run, i);
    assert Clean(run[i]) && NodeIsClean(run[i], n);
    HoldersAreFew(run[i], n);
  }

  /** The constructor's node, in such a run, is deleted by the step that leaves exactly two threads holding it. */
  lemma FirstNodeIsDeletedUnderTwo(run: seq<State>, steps: seq<Step>, i: nat, t: nat)
    requires IsStepRun(run, steps) && NeverStale(run, steps) && i < |steps| && steps[i] == Act(t)
    requires t < |run[i].threads| && Counts(run[i].threads[t]) && Holds(run[i].threads[t], 0)
    ensures |run[i].nodes| > 0 && |run[i + 1].nodes| > 0
    ensures run[i + 1].nodes[0].deletes > run[i].nodes[0].deletes <==>
      run[i + 1].nodes[0].counters == 0 && Holders(run[i + 1], 0) == 2
  {
    SettledWhileNotStale(run, steps, i);
    SettledWhileNotStale(run, steps, i + 1);
    assert Takes(run[i], steps[i], run[i + 1]);
    OwedTwoIsDeletedUnderTwo(run[i], t);
  }

  lemma OwedTwoIsDeletedUnderTwo(s: State, t: nat)
    requires Inv(s) && Enabled(s, Act(t)) && Counts(s.threads[t]) && Holds(s.threads[t], 0)
    requires var s' := Next(s, Act(t)); Inv(s') && s'.nodes[0].debt == 2
    ensures |s.nodes| > 0
    ensures var s' := Next(s, Act(t));
      s'.nodes[0].deletes > s.nodes[0].deletes <==> s'.nodes[0].counters == 0 && Holders(s', 0) == 2
  {
    DeletesWhenHoldersMatchDebt(s, t, 0);
    HoldersAreFew(Next(s, Act(t)), 0);
  }

  // ---------- One producer ----------

  predicate Pushing(pc: Pc) { Making(pc) || pc.PushSwap? }

  /** At most one thread is pushing. */
  ghost predicate OnePusher(s: State) {
    forall t, u | 0 <= t < |s.threads| && 0 <= u < |s.threads| && Pushing(s.threads[t]) && Pushing(s.threads[u]) :: t == u
  }

  ghost predicate FollowsTail(s: State, t: nat)
    requires t < |s.threads|
  {
    var pc := s.threads[t];
    && (pc.PushData? ==> s.tail.ptr == pc.was.ptr)
    && (pc.PushNext? || pc.PushSwap? ==> s.tail.ptr == At(pc.dummy))
  }

  lemma StepFollowsTail(s: State, step: Step, u: nat)
    requires Enabled(s, step) && Inv(s) && OnePusher(s) && u < |s.threads| && FollowsTail(s, u)
    ensures u < |Next(s, step).threads| && FollowsTail(Next(s, step), u)
  {
    assert ThreadInv(s, u);
  }

  lemma {:induction false} PusherFollowsTail(run: seq<State>, steps: seq<Step>, i: nat, u: nat)
    requires IsStepRun(run, steps) && i < |run| && u < |run[i].threads|
    requires forall k | 0 <= k < |run| :: OnePusher(run[k])
    ensures FollowsTail(run[i], u)
  {
    if i > 0 {
      assert Takes(run[i - 1], steps[i - 1], run[i - 1 + 1]);
      assert |run[i - 1].threads| == |run[i].threads|;
      PusherFollowsTail(run, steps, i - 1, u);
      StepsMakeRun(run, steps);
      RunKeepsInv(run, i - 1);
      StepFollowsTail(run[i - 1], steps[i - 1], u);
    }
  }

  /** With one producer at a time and any number of consumers, no exchange is ever stale. */
  lemma OneProducerIsNeverStale(run: seq<State>, steps: seq<Step>)
    requires IsStepRun(run, steps) && forall k | 0 <= k < |run| :: OnePusher(run[k])
    ensures NeverStale(run, steps) && AlwaysClean(run)
  {
    forall i | 0 <= i < |steps| ensures !IsStale(run[i], steps[i]) {
      assert Takes(run[i], steps[i], run[i + 1]);
      PusherFollowsTail(run, steps, i, steps[i].t);
    }
    CleanIffNeverStale(run, steps);
  }

  // ---------- Two runs that go wrong ----------

  ghost predicate Path(run: seq<State>) {
    |run| > 0 && forall i | 0 < i < |run| :: Moves(run[i - 1], run[i])
  }

  ghost predicate Between(run: seq<State>, s: State, s': State) { Path(run) && run[0] == s && run[|run| - 1] == s' }

  ghost predicate Reach(s: State, s': State) { exists run :: Between(run, s, s') }

  lemma OneStep(s: State, step: Step)
    requires Enabled(s, step)
    ensures Reach(s, Next(s, step))
  {
    assert Moves(s, Next(s, step));
    assert Between([s, Next(s, step)], s, Next(s, step));
  }

  lemma Via(s: State, mid: State, s': State)
    requires Reach(s, mid) && Reach(mid, s')
    ensures Reach(s, s')
  {
    var a :| Between(a, s, mid);
    var b :| Between(b, mid, s');
    Joined(Moves, a, b);
    assert Between(a + b[1..], s, s');
  }

  /** Thread `t` takes two steps of its operation. */
  lemma TwoSteps(s: State, t: nat, s1: State, s2: State)
    requires Enabled(s, Act(t)) && s1 == Next(s, Act(t))
    requires Enabled(s1, Act(t)) && s2 == Next(s1, Act(t))
    ensures Reach(s, s2)
  {
    OneStep(s, Act(t));
    OneStep(s1, Act(t));
    Via(s, s1, s2);
  }

  /** A push that has taken its reference on the tail and has not yet tried to set the data. */
  function Arrived(s: State, t: nat, value: nat): State
    requires t < |s.threads|
  {
    var more := s.tail.(external := s.tail.external + 1);
    Goto(s, t, PushData(value, |s.nodes|, more)).(nodes := s.nodes + [NewNode(t, value)], tail := more)
  }

  lemma PushArrives(s: State, t: nat, value: nat)
    requires t < |s.threads| && s.threads[t] == Idle
    ensures Reach(s, Arrived(s, t, value))
  {
    var s1 := Next(s, Push(t, value));
    OneStep(s, Push(t, value));
    var s2 := Next(s1, Act(t));
    TwoSteps(s1, t, s2, Next(s2, Act(t)));
    assert Next(s2, Act(t)) == Arrived(s, t, value);
    Via(s, s1, Arrived(s, t, value));
  }

  /** The push of thread `t` carries on undisturbed: it sets the data of node `d`, links its own node and exchanges the tail. */
  function Exchanged(s: State, t: nat): State
    requires t < |s.threads| && s.threads[t].PushData? && Valid(s, s.threads[t].was.ptr) && Valid(s, s.tail.ptr)
    requires s.threads[t].mine < |s.nodes|
  {
    var pc := s.threads[t];
    var d := pc.was.ptr.n;
    var s1 := SetNode(s, d, s.nodes[d].(data := At(pc.value), next := CountedPtr(1, At(pc.mine))));
    var s2 := SetNode(s1, pc.mine, s1.nodes[pc.mine].(pred := At(d)));
    Goto(Swapped(s2, t, pc.mine, d), t, PushFree(s.tail)).(tail := CountedPtr(1, At(pc.mine)))
  }

  /** The three steps by which it does so. */
  lemma ExchangedIs(s: State, t: nat)
    requires t < |s.threads| && s.threads[t].PushData? && Valid(s, s.threads[t].was.ptr) && Valid(s, s.tail.ptr)
    requires s.threads[t].mine < |s.nodes| && s.nodes[s.threads[t].was.ptr.n].data == Null
    ensures Enabled(s, Act(t)) && Enabled(Next(s, Act(t)), Act(t)) && Enabled(Next(Next(s, Act(t)), Act(t)), Act(t))
    ensures Next(Next(Next(s, Act(t)), Act(t)), Act(t)) == Exchanged(s, t)
  {
    var pc, d := s.threads[t], s.threads[t].was.ptr.n;
    var s1 := Goto(SetNode(s, d, s.nodes[d].(data := At(pc.value))), t, PushNext(pc.mine, d));
    assert Next(s, Act(t)) == s1;
    var s2 := Next(s1, Act(t));
    assert s2.threads[t] == PushSwap(pc.mine, d) && s2.tail == s.tail;
  }

  lemma PushExchanges(s: State, t: nat)
    requires t < |s.threads| && s.threads[t].PushData? && Valid(s, s.threads[t].was.ptr) && Valid(s, s.tail.ptr)
    requires s.threads[t].mine < |s.nodes| && s.nodes[s.threads[t].was.ptr.n].data == Null
    ensures Reach(s, Exchanged(s, t))
  {
    ExchangedIs(s, t);
    ThreeSteps(s, Act(t), Next(s, Act(t)), Next(Next(s, Act(t)), Act(t)), Exchanged(s, t));
  }

  lemma ThreeSteps(s: State, step: Step, s1: State, s2: State, s3: State)
    requires Enabled(s, step) && s1 == Next(s, step) && Enabled(s1, step) && s2 == Next(s1, step) && Enabled(s2, step) && s3 == Next(s2, step)
    ensures Reach(s, s3)
  {
    OneStep(s, step);
    OneStep(s1, step);
    OneStep(s2, step);
    Via(s, s1, s2);
    Via(s, s2, s3);
  }

  /** A pop that has taken its reference on the head and has seen that the queue is not empty. */
  function Looking(s: State, t: nat): State
    requires t < |s.threads|
  {
    var more := s.head.(external := s.head.external + 1);
    Goto(s, t, PopRead(more)).(head := more)
  }

  lemma PopLooks(s: State, t: nat)
    requires t < |s.threads| && s.threads[t] == Idle && s.head.ptr != s.tail.ptr
    ensures Reach(s, Looking(s, t))
  {
    var s1 := Next(s, Pop(t));
    var s2 := Next(s1, Act(t));
    OneStep(s, Pop(t));
    OneStep(s1, Act(t));
    Via(s, s1, s2);
    TwoSteps(s2, t, Next(s2, Act(t)), Looking(s, t));
    Via(s, s2, Looking(s, t));
  }

  /** The pop carries on undisturbed: it takes down the head and takes the data. */
  function HeadTaken(s: State, t: nat): State
    requires t < |s.threads| && s.threads[t].PopRead? && Valid(s, s.threads[t].was.ptr)
    requires var next := s.nodes[s.threads[t].was.ptr.n].next; next.ptr.At? ==> Valid(s, next.ptr)
  {
    var was := s.threads[t].was;
    var next := s.nodes[was.ptr.n].next;
    var s1 := SetNode(s, was.ptr.n, s.nodes[was.ptr.n].(headSide := Pending(t)));
    var s2 := if next.ptr.At? then SetNode(s1, next.ptr.n, s1.nodes[next.ptr.n].(headSide := InPlace)) else s1;
    Goto(SetNode(s2, was.ptr.n, s2.nodes[was.ptr.n].(data := Null)), t, PopFree(was, s.nodes[was.ptr.n].data)).(head := next)
  }

  lemma PopTakes(s: State, t: nat)
    requires t < |s.threads| && s.threads[t].PopRead? && s.threads[t].was == s.head && Valid(s, s.head.ptr)
    requires var next := s.nodes[s.head.ptr.n].next; next.ptr.At? ==> Valid(s, next.ptr)
    ensures Reach(s, HeadTaken(s, t))
  {
    var s1 := Next(s, Act(t));
    var s2 := Next(s1, Act(t));
    TwoSteps(s, t, s1, s2);
    OneStep(s2, Act(t));
    assert Next(s2, Act(t)) == HeadTaken(s, t);
    Via(s, s2, HeadTaken(s, t));
  }

  function FirstNode(): Node { Node(Null, 0, 2, NO_NEXT, 0, InPlace, InPlace, Null, 2, 0) }

  function Initial(): State {
    State(CountedPtr(0, At(0)), CountedPtr(0, At(0)), [FirstNode()], [Idle, Idle, Idle])
  }

  lemma ReachIsRun(s: State, s': State) returns (run: seq<State>)
    requires Init(s) && Reach(s, s')
    ensures IsQueueRun(run) && run[|run| - 1] == s'
  {
    run :| Between(run, s, s');
  }

  ghost predicate DeletedUnderPop(s: State) {
    |s.threads| == 3 && |s.nodes| == 3 && s.nodes[2].deletes == 1 && s.threads[2].PopRead? && Holds(s.threads[2], 2)
  }

  ghost predicate DeletedUnderPushes(s: State) {
    && |s.threads| == 3 && |s.nodes| > 0 && s.nodes[0].deletes == 1
    && s.threads[0].PushData? && Holds(s.threads[0], 0) && s.threads[1].PushData? && Holds(s.threads[1], 0)
  }

  /** Two pushes hold the first node, and a third has run to completion. */
  function TwoHoldFirst(): State {
    var c := Arrived(Arrived(Arrived(Initial(), 0, 10), 1, 11), 2, 12);
    assert c.nodes == [FirstNode(), NewNode(0, 10), NewNode(1, 11), NewNode(2, 12)];
    Next(Exchanged(c, 2), Act(2))
  }

  lemma TwoCanHoldFirst()
    ensures Reach(Initial(), TwoHoldFirst())
  {
    var a := Arrived(Initial(), 0, 10);
    var b := Arrived(a, 1, 11);
    var c := Arrived(b, 2, 12);
    PushArrives(Initial(), 0, 10);
    PushArrives(a, 1, 11);
    Via(Initial(), a, b);
    PushArrives(b, 2, 12);
    Via(Initial(), b, c);
    assert c.nodes == [FirstNode(), NewNode(0, 10), NewNode(1, 11), NewNode(2, 12)];
    PushExchanges(c, 2);
    Via(Initial(), c, Exchanged(c, 2));
    OneStep(Exchanged(c, 2), Act(2));
    Via(Initial(), Exchanged(c, 2), TwoHoldFirst());
  }

  ghost predicate FirstIsHeldTwice(e: State) {
    && |e.threads| == 3 && |e.nodes| == 4 && e.threads[2] == Idle
    && (forall t | 0 <= t < 2 :: e.threads[t].PushData? && e.threads[t].was.ptr == At(0))
    && e.head == CountedPtr(0, At(0)) && e.tail.ptr == At(3) && e.nodes[0].next == CountedPtr(1, At(3))
    && e.nodes[0].internal == 1 && e.nodes[0].counters == 1 && e.nodes[0].deletes == 0
  }

  lemma PopDeletesFirst(e: State)
    requires FirstIsHeldTwice(e)
    ensures exists z :: Reach(e, z) && DeletedUnderPushes(z)
  {
    PopLooks(e, 2);
    var f := Looking(e, 2);
    PopTakes(f, 2);
    var g := HeadTaken(f, 2);
    Via(e, f, g);
    OneStep(g, Act(2));
    Via(e, g, Next(g, Act(2)));
    assert DeletedUnderPushes(Next(g, Act(2)));
  }

  /** Two pushes hold the first node and a third push and a pop run to completion: the pop deletes the node under them. */
  lemma FirstNodeIsDeletedWhileHeld() returns (run: seq<State>)
    ensures IsQueueRun(run)
    ensures DeletedUnderPushes(run[|run| - 1])
  {
    TwoCanHoldFirst();
    var e := TwoHoldFirst();
    assert FirstIsHeldTwice(e);
    PopDeletesFirst(e);
    var z :| Reach(e, z) && DeletedUnderPushes(z);
    Via(Initial(), e, z);
    run := ReachIsRun(Initial(), z);
  }

  /** A push holds the first node, from which a pop has taken the data of another push. */
  ghost predicate EmptiedUnderPush(g: State) {
    && |g.threads| == 3 && |g.nodes| == 3 && g.head == g.tail == CountedPtr(1, At(2))
    && g.threads[0].PushData? && g.threads[0].was.ptr == At(0) && g.threads[0].mine == 1 && g.nodes[0].data == Null
    && g.threads[1] == Idle && g.threads[2] == Idle
    && g.nodes[2].internal == 0 && g.nodes[2].counters == 2 && g.nodes[2].deletes == 0 && g.nodes[2].next == NO_NEXT
  }

  /** One push holds the first node, and another has run to completion. */
  function OneHoldsFirst(): State {
    var b := Arrived(Arrived(Initial(), 0, 10), 1, 11);
    assert b.nodes == [FirstNode(), NewNode(0, 10), NewNode(1, 11)];
    Next(Exchanged(b, 1), Act(1))
  }

  lemma OneCanHoldFirst()
    ensures Reach(Initial(), OneHoldsFirst())
  {
    var a := Arrived(Initial(), 0, 10);
    var b := Arrived(a, 1, 11);
    PushArrives(Initial(), 0, 10);
    PushArrives(a, 1, 11);
    Via(Initial(), a, b);
    assert b.nodes == [FirstNode(), NewNode(0, 10), NewNode(1, 11)];
    PushExchanges(b, 1);
    Via(Initial(), b, Exchanged(b, 1));
    OneStep(Exchanged(b, 1), Act(1));
    Via(Initial(), Exchanged(b, 1), OneHoldsFirst());
  }

  lemma CanBeEmptiedUnderPush()
    ensures exists g :: Reach(Initial(), g) && EmptiedUnderPush(g)
  {
    OneCanHoldFirst();
    var d := OneHoldsFirst();
    PopLooks(d, 1);
    var e := Looking(d, 1);
    Via(Initial(), d, e);
    PopTakes(e, 1);
    var f := HeadTaken(e, 1);
    Via(Initial(), e, f);
    OneStep(f, Act(1));
    Via(Initial(), f, Next(f, Act(1)));
    assert EmptiedUnderPush(Next(f, Act(1)));
  }

  /** A push that still holds a node which a pop has emptied sets its data again and exchanges a tail that has moved on. The node
      that the tail led to is one short from then on: here it is deleted while another pop reads it. */
  lemma StalePushDeletesHeldNode() returns (run: seq<State>)
    ensures IsQueueRun(run)
    ensures DeletedUnderPop(run[|run| - 1])
  {
    CanBeEmptiedUnderPush();
    var g :| Reach(Initial(), g) && EmptiedUnderPush(g);
    StaleExchange(g);
    var h :| Reach(g, h) && LeftShort(h);
    Via(Initial(), g, h);
    ShortEnding(h);
    var z :| Reach(h, z) && DeletedUnderPop(z);
    Via(Initial(), h, z);
    run := ReachIsRun(Initial(), z);
  }

  /** The tail's old node has been left, and is one reference short. */
  ghost predicate LeftShort(s: State) {
    && |s.threads| == 3 && |s.nodes| == 3 && s.head == CountedPtr(1, At(2)) && s.tail.ptr == At(1)
    && s.threads[1] == Idle && s.threads[2] == Idle
    && s.nodes[2].internal == Field30(-1) && s.nodes[2].counters == 1 && s.nodes[2].deletes == 0 && s.nodes[2].next == NO_NEXT
  }

  lemma StaleExchange(g: State)
    requires EmptiedUnderPush(g)
    ensures exists h :: Reach(g, h) && LeftShort(h)
  {
    PushExchanges(g, 0);
    var h := Exchanged(g, 0);
    OneStep(h, Act(0));
    Via(g, h, Next(h, Act(0)));
    assert LeftShort(Next(h, Act(0)));
  }

  lemma ShortEnding(h: State)
    requires LeftShort(h)
    ensures exists z :: Reach(h, z) && DeletedUnderPop(z)
  {
    PopLooks(h, 2);
    var i := Looking(h, 2);
    PopLooks(i, 1);
    var j := Looking(i, 1);
    Via(h, i, j);
    PopTakes(j, 1);
    var k := HeadTaken(j, 1);
    Via(h, j, k);
    OneStep(k, Act(1));
    Via(h, k, Next(k, Act(1)));
    assert DeletedUnderPop(Next(k, Act(1)));
  }
}
