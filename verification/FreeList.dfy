/** The lock-free free list of src/concurrent/concurrentqueue.h (`FreeList`): a stack of nodes that are never freed, each with
    one 32-bit word that counts references in its low 31 bits and has a should-be-on-freelist bit on top.

    A node is added by whoever owns it; `try_get` hands its ownership to one caller. A node whose references have not all gone
    when it is added is only flagged, and the thread that drops the last reference adds it. */
module FreeList {
  import opened Links
  import opened Runs
  import opened Sums

  const FLAG: nat := 0x8000_0000   // SHOULD_BE_ON_FREELIST

  /** REFS_MASK */
  function Refs(word: nat): nat { word % 0x8000_0000 }

  function Flagged(word: nat): bool { word >= 0x8000_0000 }

  function Word(value: int): nat { value % 0x1_0000_0000 }

  /** What a thread does when it leaves add_knowing_refcount_is_zero: return from `add`, or go on in the loop of `try_get`. */
  datatype Resume = Return | Retry(head: Ptr)

  datatype Pc =
    | Idle
    | LoadHead                                            // try_get: about to load the head
    | LoadRefs(h: nat)                                    // about to load the word of `h`
    | AddRef(h: nat, word: nat)                           // about to CAS it one up
    | LoadNext(h: nat)                                    // has a reference; about to read the next pointer
    | Pop(h: nat, next: Ptr)                              // about to CAS the head from `h` to `next`
    | Won(h: nat)                                         // took `h` off the list; about to drop two references
    | DropRef(h: nat, seen: Ptr)                          // lost against another thread; about to drop its reference
    | Add(node: nat, resume: Resume)                      // add_knowing_refcount_is_zero: about to load the head
    | SetNext(node: nat, head: Ptr, resume: Resume)       // about to store the next pointer
    | SetRefs(node: nat, head: Ptr, resume: Resume)       // about to store 1 into the word
    | Push(node: nat, head: Ptr, resume: Resume)          // about to CAS the head from `head` to the node
    | Undo(node: nat, head: Ptr, resume: Resume)          // the CAS failed; about to set the flag and drop the reference

  /** History: where a node is. */
  datatype Place =
    | Owned              // with the client
    | Waiting            // flagged, with references left
    | Adding(t: nat)     // thread `t` is in add_knowing_refcount_is_zero, before it stores 1
    | Publishing(t: nat) // ... and after
    | Listed
    | Removing(t: nat)   // off the list, references not yet dropped

  datatype Node = Node(word: nat, next: Ptr, place: Place)

  datatype State = State(
    head: Ptr,
    nodes: seq<Node>,
    threads: seq<Pc>,
    list: seq<nat>)     // history: the nodes on the list, head first

  datatype Step =
    | TryGet(t: nat)
    | AddNode(t: nat, node: nat)     // `add`: the fetch_add; only for a node that its client owns
    | Act(t: nat)

  /** Threads only follow pointers to nodes. */
  predicate PcShape(pc: Pc, n: nat) {
    match pc
    case Idle => true
    case LoadHead => true
    case LoadRefs(h) => h < n
    case AddRef(h, _) => h < n
    case LoadNext(h) => h < n
    case Pop(h, next) => h < n && PtrShape(next, n)
    case Won(h) => h < n
    case DropRef(h, seen) => h < n && PtrShape(seen, n)
    case Add(node, resume) => node < n && ResumeShape(resume, n)
    case SetNext(node, head, resume) => node < n && PtrShape(head, n) && ResumeShape(resume, n)
    case SetRefs(node, head, resume) => node < n && PtrShape(head, n) && ResumeShape(resume, n)
    case Push(node, head, resume) => node < n && PtrShape(head, n) && ResumeShape(resume, n)
    case Undo(node, head, resume) => node < n && PtrShape(head, n) && ResumeShape(resume, n)
  }

  predicate PtrShape(p: Ptr, n: nat) { p.At? ==> p.n < n }

  predicate ResumeShape(r: Resume, n: nat) { r.Retry? ==> PtrShape(r.head, n) }

  ghost predicate Shape(s: State) {
    && PtrShape(s.head, |s.nodes|)
    && (forall n | 0 <= n < |s.nodes| :: PtrShape(s.nodes[n].next, |s.nodes|))
    && (forall t | 0 <= t < |s.threads| :: PcShape(s.threads[t], |s.nodes|))
  }

  predicate Enabled(s: State, step: Step) {
    match step
    case TryGet(t) => t < |s.threads| && s.threads[t].Idle?
    case AddNode(t, n) => t < |s.threads| && s.threads[t].Idle? && n < |s.nodes| && s.nodes[n].place.Owned?
    case Act(t) => t < |s.threads| && !s.threads[t].Idle? && PcShape(s.threads[t], |s.nodes|)
  }

  function Goto(s: State, t: nat, pc: Pc): State
    requires t < |s.threads|
  {
    s.(threads := s.threads[t := pc])
  }

  /** The top of the `while (head != nullptr)` loop of `try_get`. */
  function Loop(head: Ptr): Pc { if head.At? then LoadRefs(head.n) else Idle }

  function After(resume: Resume): Pc { if resume.Retry? then Loop(resume.head) else Idle }

  function SetNode(s: State, n: nat, node: Node): State
    requires n < |s.nodes|
  {
    s.(nodes := s.nodes[n := node])
  }

  function Next(s: State, step: Step): State
    requires Enabled(s, step)
  {
    match step
    case TryGet(t) => Goto(s, t, LoadHead)
    case AddNode(t, n) =>
      var node := s.nodes[n];
      if node.word == 0 then
        Goto(SetNode(s, n, node.(word := Word(node.word + FLAG), place := Adding(t))), t, Add(n, Return))
      else
        SetNode(s, n, node.(word := Word(node.word + FLAG), place := Waiting))
    case Act(t) =>
      match s.threads[t]
      case Idle => s
      case LoadHead => Goto(s, t, Loop(s.head))
      case LoadRefs(h) =>
        Goto(s, t, if Refs(s.nodes[h].word) == 0 then LoadHead else AddRef(h, s.nodes[h].word))
      case AddRef(h, word) =>
        if s.nodes[h].word == word then
          Goto(SetNode(s, h, s.nodes[h].(word := Word(word + 1))), t, LoadNext(h))
        else
          Goto(s, t, LoadHead)
      case LoadNext(h) => Goto(s, t, Pop(h, s.nodes[h].next))
      case Pop(h, next) =>
        if s.head == At(h) then
          Goto(SetNode(s, h, s.nodes[h].(place := Removing(t))), t, Won(h)).(
            head := next, list := if s.list == [] then [] else s.list[1..])
        else
          Goto(s, t, DropRef(h, s.head))
      case Won(h) =>
        Goto(SetNode(s, h, s.nodes[h].(word := Word(s.nodes[h].word - 2), place := Owned)), t, Idle)
      case DropRef(h, seen) =>
        var was := s.nodes[h].word;
        if was == FLAG + 1 then
          Goto(SetNode(s, h, s.nodes[h].(word := Word(was - 1), place := Adding(t))), t, Add(h, Retry(seen)))
        else
          Goto(SetNode(s, h, s.nodes[h].(word := Word(was - 1))), t, Loop(seen))
      case Add(n, resume) => Goto(s, t, SetNext(n, s.head, resume))
      case SetNext(n, head, resume) =>
        Goto(SetNode(s, n, s.nodes[n].(next := head)), t, SetRefs(n, head, resume))
      case SetRefs(n, head, resume) =>
        Goto(SetNode(s, n, s.nodes[n].(word := 1, place := Publishing(t))), t, Push(n, head, resume))
      case Push(n, head, resume) =>
        if s.head == head then
          Goto(SetNode(s, n, s.nodes[n].(place := Listed)), t, After(resume)).(head := At(n), list := [n] + s.list)
        else
          Goto(s, t, Undo(n, s.head, resume))
      case Undo(n, head, resume) =>
        var was := s.nodes[n].word;
        var word := Word(was + FLAG - 1);
        if was == 1 then
          Goto(SetNode(s, n, s.nodes[n].(word := word, place := Adding(t))), t, SetNext(n, head, resume))
        else
          Goto(SetNode(s, n, s.nodes[n].(word := word, place := Waiting)), t, After(resume))
  }

  /** No node is on the list at first, and each belongs to its client; fewer than 2^31 references can exist. */
  ghost predicate Init(s: State) {
    && s.head == Null && s.list == [] && |s.threads| < 0x7FFF_FFFE
    && (forall n | 0 <= n < |s.nodes| :: s.nodes[n].word == 0 && s.nodes[n].place == Owned && PtrShape(s.nodes[n].next, |s.nodes|))
    && (forall t | 0 <= t < |s.threads| :: s.threads[t] == Idle)
  }

  ghost predicate Moves(s: State, s': State) { exists step :: Enabled(s, step) && s' == Next(s, step) }

  ghost predicate IsListRun(run: seq<State>) { IsRun(Init, Moves, run) }

  // ---------- The invariant ----------

  /** A thread in `try_get` holds a reference on the node it works on. */
  predicate Holds(pc: Pc, n: nat) { (pc.LoadNext? || pc.Pop? || pc.DropRef?) && pc.h == n }

  function Holder(n: nat): Pc -> int { pc => if Holds(pc, n) then 1 else 0 }

  /** The references of a node that are not held by threads that may still lose the race: one for the list,
      and, while a node is being removed, one for its new owner. */
  function OwnRefs(p: Place): nat {
    match p
    case Publishing(_) => 1
    case Listed => 1
    case Removing(_) => 2
    case _ => 0
  }

  predicate IsFlagged(p: Place) { p.Waiting? || p.Adding? }

  predicate IsAdding(pc: Pc, n: nat) { (pc.Add? || pc.SetNext? || pc.SetRefs?) && pc.node == n }

  predicate IsPublishing(pc: Pc, n: nat) { (pc.Push? || pc.Undo?) && pc.node == n }

  ghost predicate NodeInv(s: State, n: nat)
    requires n < |s.nodes|
  {
    var node, held := s.nodes[n], Sum(Holder(n), s.threads);
    && 0 <= held <= |s.threads|
    && node.word == (if IsFlagged(node.place) then FLAG else 0) + OwnRefs(node.place) + held
    && (node.place.Waiting? ==> held > 0)
    && (node.place.Adding? ==> held == 0 && node.place.t < |s.threads| && IsAdding(s.threads[node.place.t], n))
    && (node.place.Publishing? ==> node.place.t < |s.threads| && IsPublishing(s.threads[node.place.t], n))
    && (node.place.Removing? ==> node.place.t < |s.threads| && s.threads[node.place.t] == Won(n))
    && (node.place.Listed? <==> n in s.list)
  }

  ghost predicate ThreadInv(s: State, t: nat)
    requires t < |s.threads|
  {
    var pc := s.threads[t];
    && PcShape(pc, |s.nodes|)
    && (pc.Pop? ==> s.nodes[pc.h].next == pc.next)
    && (pc.AddRef? ==> Refs(pc.word) != 0)
    && (pc.Won? ==> s.nodes[pc.h].place == Removing(t))
    && (pc.Add? || pc.SetNext? || pc.SetRefs? ==> s.nodes[pc.node].place == Adding(t))
    && (pc.Push? || pc.Undo? ==> s.nodes[pc.node].place == Publishing(t))
    && (pc.SetRefs? || pc.Push? ==> s.nodes[pc.node].next == pc.head)
  }

  /** The next pointers thread the list, and no node is linked twice. */
  ghost predicate ListInv(s: State) {
    && (forall i | 0 <= i < |s.list| :: s.list[i] < |s.nodes|)
    && (forall i, j | 0 <= i < j < |s.list| :: s.list[i] != s.list[j])
    && s.head == (if s.list == [] then Null else At(s.list[0]))
    && (forall i | 0 <= i < |s.list| :: s.nodes[s.list[i]].next == From(s.list, i + 1))
  }

  lemma ListStays(s: State, s': State)
    requires ListInv(s) && s'.list == s.list && s'.head == s.head && |s'.nodes| == |s.nodes|
    requires forall n | 0 <= n < |s.nodes| && n in s.list :: s'.nodes[n].next == s.nodes[n].next
    ensures ListInv(s')
  {
  }

  ghost predicate Inv(s: State) {
    && Shape(s)
    && |s.threads| < 0x7FFF_FFFE
    && (forall n | 0 <= n < |s.nodes| :: NodeInv(s, n))
    && (forall t | 0 <= t < |s.threads| :: ThreadInv(s, t))
    && ListInv(s)
  }

  // ---------- Each step keeps the invariant ----------

  /** Thread `pc` is responsible for, or has a reference on, no node but `n`. */
  ghost predicate OnlyOn(pc: Pc, n: nat) {
    forall m: nat | Holds(pc, m) || IsAdding(pc, m) || IsPublishing(pc, m) || pc == Won(m) :: m == n
  }

  ghost predicate Concerned(p: Place, t: nat) { p == Adding(t) || p == Publishing(t) || p == Removing(t) }

  /** A step of thread `t` that changes one node, and perhaps the head, keeps the invariant if it does so for that node,
      that thread and the list, and disturbs no other thread. */
  lemma ChangeKeepsInv(s: State, t: nat, n: nat, s': State)
    requires Inv(s) && t < |s.threads| && n < |s.nodes|
    requires |s'.nodes| == |s.nodes| && |s'.threads| == |s.threads|
    requires s'.nodes == s.nodes[n := s'.nodes[n]] && s'.threads == s.threads[t := s'.threads[t]]
    requires OnlyOn(s.threads[t], n) && OnlyOn(s'.threads[t], n)
    requires forall m: nat | m != n :: m in s'.list <==> m in s.list
    requires Sum(Holder(n), s'.threads) == Sum(Holder(n), s.threads) - Holder(n)(s.threads[t]) + Holder(n)(s'.threads[t])
      ==> NodeInv(s', n)
    requires ThreadInv(s', t) && ListInv(s') && PtrShape(s'.head, |s.nodes|) && PtrShape(s'.nodes[n].next, |s.nodes|)
    requires s'.nodes[n].place == s.nodes[n].place || forall u: nat | u != t :: !Concerned(s.nodes[n].place, u)
    requires s'.nodes[n].next == s.nodes[n].next || s.nodes[n].place == Adding(t)
    ensures Inv(s')
  {
    SumUpdate(Holder(n), s.threads, t, s'.threads[t]);
    forall m | 0 <= m < |s'.nodes| && m != n ensures NodeInv(s', m) {
      assert NodeInv(s, m);
      SumUpdate(Holder(m), s.threads, t, s'.threads[t]);
    }
    forall u | 0 <= u < |s'.threads| && u != t ensures ThreadInv(s', u) {
      assert ThreadInv(s, u) && (s'.nodes[n].place == s.nodes[n].place || !Concerned(s.nodes[n].place, u));
      if s.threads[u].Pop? && s.threads[u].h == n {
        assert NodeInv(s, n);
        HolderCounts(s, n, u);
      }
    }
  }

  /** A thread that holds a reference is counted. */
  lemma HolderCounts(s: State, n: nat, t: nat)
    requires t < |s.threads| && Holds(s.threads[t], n)
    ensures Sum(Holder(n), s.threads) >= 1
  {
    SumAtLeast(Holder(n), s.threads, t);
  }

  /** A step that only moves thread `t` along. */
  lemma MoveKeepsInv(s: State, t: nat, pc: Pc)
    requires Inv(s) && t < |s.threads|
    requires forall m: nat :: Holds(pc, m) == Holds(s.threads[t], m)
    requires forall m: nat :: IsAdding(pc, m) == IsAdding(s.threads[t], m)
    requires forall m: nat :: IsPublishing(pc, m) == IsPublishing(s.threads[t], m)
    requires !pc.Won? && !s.threads[t].Won?
    requires ThreadInv(Goto(s, t, pc), t)
    ensures Inv(Goto(s, t, pc))
  {
    var s' := Goto(s, t, pc);
    ListStays(s, s');
    forall m | 0 <= m < |s'.nodes| ensures NodeInv(s', m) {
      assert NodeInv(s, m);
      SumUpdate(Holder(m), s.threads, t, pc);
    }
    forall u | 0 <= u < |s'.threads| && u != t ensures ThreadInv(s', u) { assert ThreadInv(s, u); }
  }

  predicate OnlyReads(s: State, pc: Pc)
    requires PcShape(pc, |s.nodes|)
  {
    || pc.LoadHead? || pc.LoadRefs? || pc.LoadNext? || pc.Add?
    || (pc.AddRef? && s.nodes[pc.h].word != pc.word)
    || (pc.Pop? && s.head != At(pc.h))
    || (pc.Push? && s.head != pc.head)
  }

  /** Steps before a reference is taken, and reading without changing anything. */
  lemma ReadingKeepsInv(s: State, t: nat)
    requires Inv(s) && Enabled(s, Act(t))
    requires OnlyReads(s, s.threads[t])
    ensures Inv(Next(s, Act(t)))
  {
    assert ThreadInv(s, t);
    MoveKeepsInv(s, t, Next(s, Act(t)).threads[t]);
  }

  predicate Counts(pc: Pc) { pc.AddRef? || pc.Won? || pc.DropRef? || pc.SetNext? || pc.SetRefs? || pc.Undo? }

  function NodeOf(pc: Pc): nat
    requires Counts(pc)
  {
    if pc.AddRef? || pc.Won? || pc.DropRef? then pc.h else pc.node
  }

  /** Thread `t` takes a step from `s` to `s'` that counts on node `n`, and its references are counted right. */
  ghost predicate CountingStep(s: State, t: nat, n: nat, s': State) {
    && Enabled(s, Act(t)) && Counts(s.threads[t]) && n == NodeOf(s.threads[t]) && s' == Next(s, Act(t))
    && (s.threads[t].AddRef? ==> s.nodes[n].word == s.threads[t].word)
    && |s.threads| < 0x7FFF_FFFE && NodeInv(s, n) && ThreadInv(s, t)
    && Sum(Holder(n), s'.threads) == Sum(Holder(n), s.threads) - Holder(n)(s.threads[t]) + Holder(n)(s'.threads[t])
    && 0 <= Sum(Holder(n), s'.threads) <= |s.threads|
  }

  /** The word of the node stays the sum of its flag and its references. */
  lemma AddRefKeepsNode(s: State, t: nat, n: nat, s': State)
    requires CountingStep(s, t, n, s') && s.threads[t].AddRef?
    ensures NodeInv(s', n) && ThreadInv(s', t) && s'.nodes[n].place == s.nodes[n].place
  {
  }

  lemma WonKeepsNode(s: State, t: nat, n: nat, s': State)
    requires CountingStep(s, t, n, s') && s.threads[t].Won?
    ensures NodeInv(s', n) && ThreadInv(s', t)
    ensures s'.nodes[n].place == s.nodes[n].place || forall u: nat | u != t :: !Concerned(s.nodes[n].place, u)
  {
  }

  lemma DropRefKeepsNode(s: State, t: nat, n: nat, s': State)
    requires CountingStep(s, t, n, s') && s.threads[t].DropRef?
    ensures NodeInv(s', n) && ThreadInv(s', t)
    ensures s'.nodes[n].place == s.nodes[n].place || forall u: nat | u != t :: !Concerned(s.nodes[n].place, u)
  {
  }

  lemma TryGetKeepsNode(s: State, t: nat, n: nat, s': State)
    requires CountingStep(s, t, n, s') && (s.threads[t].AddRef? || s.threads[t].Won? || s.threads[t].DropRef?)
    ensures NodeInv(s', n) && ThreadInv(s', t)
    ensures s'.nodes[n].place == s.nodes[n].place || forall u: nat | u != t :: !Concerned(s.nodes[n].place, u)
  {
    if s.threads[t].AddRef? { AddRefKeepsNode(s, t, n, s'); }
    else if s.threads[t].Won? { WonKeepsNode(s, t, n, s'); }
    else { DropRefKeepsNode(s, t, n, s'); }
  }

  lemma AddingKeepsNode(s: State, t: nat, n: nat, s': State)
    requires CountingStep(s, t, n, s') && (s.threads[t].SetNext? || s.threads[t].SetRefs? || s.threads[t].Undo?)
    ensures NodeInv(s', n) && ThreadInv(s', t)
    ensures s'.nodes[n].place == s.nodes[n].place || forall u: nat | u != t :: !Concerned(s.nodes[n].place, u)
  {
  }

  /** A step that counts changes nothing else. */
  lemma CountingChangesOneNode(s: State, t: nat, n: nat, s': State)
    requires CountingStep(s, t, n, s')
    ensures s'.head == s.head && s'.list == s.list && |s'.nodes| == |s.nodes|
    ensures s'.nodes == s.nodes[n := s'.nodes[n]] && s'.threads == s.threads[t := s'.threads[t]]
    ensures OnlyOn(s.threads[t], n) && OnlyOn(s'.threads[t], n)
    ensures s'.nodes[n].next == s.nodes[n].next || (s.nodes[n].place == Adding(t) && PtrShape(s'.nodes[n].next, |s.nodes|))
  {
  }

  /** Counting a reference up or down, flagging, and preparing a node for the list. */
  lemma CountingKeepsInv(s: State, t: nat)
    requires Inv(s) && Enabled(s, Act(t)) && Counts(s.threads[t])
    requires s.threads[t].AddRef? ==> s.nodes[s.threads[t].h].word == s.threads[t].word
    ensures Inv(Next(s, Act(t)))
  {
    var s', n := Next(s, Act(t)), NodeOf(s.threads[t]);
    assert ThreadInv(s, t) && NodeInv(s, n);
    SumUpdate(Holder(n), s.threads, t, s'.threads[t]);
    RefsAreCounted(s', n);
    CountingStepKeepsInv(s, t, n, s');
  }

  lemma CountingStepKeepsInv(s: State, t: nat, n: nat, s': State)
    requires Inv(s) && CountingStep(s, t, n, s')
    ensures Inv(s')
  {
    CountingChangesOneNode(s, t, n, s');
    var pc := s.threads[t];
    if pc.AddRef? || pc.Won? || pc.DropRef? { TryGetKeepsNode(s, t, n, s'); } else { AddingKeepsNode(s, t, n, s'); }
    ListStays(s, s');
    ChangeKeepsInv(s, t, n, s');
  }

  /** No more references are held than there are threads. */
  lemma RefsAreCounted(s: State, n: nat)
    ensures 0 <= Sum(Holder(n), s.threads) <= |s.threads|
  {
    SumBounds(Holder(n), s.threads, 0, 1);
  }

  lemma PopKeepsList(s: State, s': State)
    requires ListInv(s) && s.list != [] && s'.list == s.list[1..] && s'.head == s.nodes[s.list[0]].next
    requires |s'.nodes| == |s.nodes| && forall n | 0 <= n < |s.nodes| :: s'.nodes[n].next == s.nodes[n].next
    ensures ListInv(s')
    ensures forall m: nat :: m in s'.list <==> m in s.list && m != s.list[0]
  {
    assert forall i | 0 <= i <= |s'.list| :: From(s'.list, i) == From(s.list, i + 1);
    assert s.list == [s.list[0]] + s'.list;
  }

  lemma PushKeepsList(s: State, s': State, n: nat)
    requires ListInv(s) && n < |s.nodes| && n !in s.list && s'.list == [n] + s.list && s'.head == At(n)
    requires s.nodes[n].next == s.head
    requires |s'.nodes| == |s.nodes| && forall m | 0 <= m < |s.nodes| :: s'.nodes[m].next == s.nodes[m].next
    ensures ListInv(s')
  {
    forall i | 0 <= i < |s'.list| ensures s'.nodes[s'.list[i]].next == From(s'.list, i + 1) {
      if i > 0 { assert s'.list[i] == s.list[i - 1] && From(s'.list, i + 1) == From(s.list, i); }
    }
  }

  lemma PopKeepsNode(s: State, t: nat, h: nat, s': State)
    requires Enabled(s, Act(t)) && s.threads[t].Pop? && h == s.threads[t].h && s.head == At(h) && s' == Next(s, Act(t))
    requires NodeInv(s, h) && ThreadInv(s, t) && ListInv(s) && Sum(Holder(h), s.threads) >= 1
    requires Sum(Holder(h), s'.threads) == Sum(Holder(h), s.threads) - Holder(h)(s.threads[t]) + Holder(h)(s'.threads[t])
    requires forall m: nat :: m in s'.list <==> m in s.list && m != s.list[0]
    ensures NodeInv(s', h) && ThreadInv(s', t)
    ensures OnlyOn(s.threads[t], h) && OnlyOn(s'.threads[t], h)
    ensures forall m: nat | m != h :: m in s'.list <==> m in s.list
    ensures forall u: nat | u != t :: !Concerned(s.nodes[h].place, u)
  {
  }

  /** A successful CAS of `try_get` installs the true successor: what the thread read as the next node still is. */
  lemma PopKeepsInv(s: State, t: nat)
    requires Inv(s) && Enabled(s, Act(t)) && s.threads[t].Pop? && s.head == At(s.threads[t].h)
    ensures Inv(Next(s, Act(t)))
  {
    var s', h := Next(s, Act(t)), s.threads[t].h;
    assert ThreadInv(s, t) && NodeInv(s, h);
    PopKeepsList(s, s');
    SumUpdate(Holder(h), s.threads, t, s'.threads[t]);
    HolderCounts(s, h, t);
    PopKeepsNode(s, t, h, s');
    ChangeKeepsInv(s, t, h, s');
  }

  lemma PushKeepsNode(s: State, t: nat, n: nat, s': State)
    requires Enabled(s, Act(t)) && s.threads[t].Push? && n == s.threads[t].node && s.head == s.threads[t].head
    requires s' == Next(s, Act(t)) && NodeInv(s, n) && ThreadInv(s, t)
    requires Sum(Holder(n), s'.threads) == Sum(Holder(n), s.threads)
    ensures NodeInv(s', n) && ThreadInv(s', t)
    ensures OnlyOn(s.threads[t], n) && OnlyOn(s'.threads[t], n)
    ensures forall m: nat | m != n :: m in s'.list <==> m in s.list
  {
  }

  lemma PushKeepsInv(s: State, t: nat)
    requires Inv(s) && Enabled(s, Act(t)) && s.threads[t].Push? && s.head == s.threads[t].head
    ensures Inv(Next(s, Act(t)))
  {
    var s', n := Next(s, Act(t)), s.threads[t].node;
    assert ThreadInv(s, t) && NodeInv(s, n);
    SumUpdate(Holder(n), s.threads, t, s'.threads[t]);
    PushKeepsList(s, s', n);
    PushKeepsNode(s, t, n, s');
    ChangeKeepsInv(s, t, n, s');
  }

  lemma AddNodeKeepsNode(s: State, t: nat, n: nat, s': State)
    requires Enabled(s, AddNode(t, n)) && s' == Next(s, AddNode(t, n))
    requires |s.threads| < 0x7FFF_FFFE && NodeInv(s, n) && ThreadInv(s, t)
    requires Sum(Holder(n), s'.threads) == Sum(Holder(n), s.threads)
    ensures NodeInv(s', n) && ThreadInv(s', t)
  {
  }

  lemma AddNodeKeepsInv(s: State, t: nat, n: nat)
    requires Inv(s) && Enabled(s, AddNode(t, n))
    ensures Inv(Next(s, AddNode(t, n)))
  {
    var s' := Next(s, AddNode(t, n));
    assert ThreadInv(s, t) && NodeInv(s, n);
    SumUpdate(Holder(n), s.threads, t, s'.threads[t]);
    AddNodeKeepsNode(s, t, n, s');
    ListStays(s, s');
    ChangeKeepsInv(s, t, n, s');
  }

  lemma StepKeepsInv(s: State, s': State)
    requires Inv(s) && Moves(s, s')
    ensures Inv(s')
  {
    var step :| Enabled(s, step) && s' == Next(s, step);
    match step
    case TryGet(t) => MoveKeepsInv(s, t, LoadHead);
    case AddNode(t, n) => AddNodeKeepsInv(s, t, n);
    case Act(t) =>
      var pc := s.threads[t];
      if Counts(pc) && (pc.AddRef? ==> s.nodes[pc.h].word == pc.word) { CountingKeepsInv(s, t); }
      else if pc.Pop? && s.head == At(pc.h) { PopKeepsInv(s, t); }
      else if pc.Push? && s.head == pc.head { PushKeepsInv(s, t); }
      else { ReadingKeepsInv(s, t); }
  }

  lemma RunKeepsInv(run: seq<State>, n: nat)
    requires IsListRun(run) && n < |run|
    ensures Inv(run[n])
  {
    forall s | Init(s) ensures Inv(s) {
      forall m | 0 <= m < |s.nodes| ensures NodeInv(s, m) { NobodyHolds(m, s.threads); }
    }
    forall s, s' | Inv(s) && Moves(s, s') ensures Inv(s') { StepKeepsInv(s, s'); }
    InvariantOfRun(Init, Moves, Inv, run);
  }

  lemma {:induction false} NobodyHolds(n: nat, threads: seq<Pc>)
    requires forall pc | pc in threads :: !Holds(pc, n)
    ensures Sum(Holder(n), threads) == 0
  {
    if threads != [] {
      NobodyHolds(n, threads[..|threads| - 1]);
      assert threads[|threads| - 1] in threads;
    }
  }

  // ---------- What holds in every state of every run ----------

  /** Following the next pointers from the head visits no node twice and ends: the pointers thread `list`, whose nodes differ. */
  lemma NoNodeIsLinkedTwice(run: seq<State>, n: nat, i: nat, j: nat)
    requires IsListRun(run) && n < |run| && i < |run[n].list| && j < |run[n].list|
    ensures run[n].head == At(run[n].list[0])
    ensures run[n].list[i] < |run[n].nodes| && run[n].nodes[run[n].list[i]].next == From(run[n].list, i + 1)
    ensures run[n].list[i] == run[n].list[j] ==> i == j
  {
    RunKeepsInv(run, n);
  }

  /** Two callers of `try_get` never get the same node; nor is the node of a caller on the list, or owned by somebody else. */
  lemma OneNodeOneOwner(run: seq<State>, n: nat, t: nat, u: nat)
    requires IsListRun(run) && n < |run| && t < |run[n].threads| && u < |run[n].threads|
    requires run[n].threads[t].Won? && run[n].threads[u].Won? && run[n].threads[t].h == run[n].threads[u].h
    ensures t == u
    ensures var h := run[n].threads[t].h; h < |run[n].nodes| && h !in run[n].list && !run[n].nodes[h].place.Owned?
  {
    RunKeepsInv(run, n);
    assert ThreadInv(run[n], t) && ThreadInv(run[n], u) && NodeInv(run[n], run[n].threads[t].h);
  }

  /** At most one thread per node is inside add_knowing_refcount_is_zero, and while it stores the next pointer nobody has
      a reference on the node. */
  lemma OneAdderPerNode(run: seq<State>, k: nat, t: nat, u: nat, n: nat)
    requires IsListRun(run) && k < |run| && t < |run[k].threads| && u < |run[k].threads|
    requires IsAdding(run[k].threads[t], n) || IsPublishing(run[k].threads[t], n)
    requires IsAdding(run[k].threads[u], n) || IsPublishing(run[k].threads[u], n)
    ensures t == u && n !in run[k].list
    ensures IsAdding(run[k].threads[t], n) ==> forall v | 0 <= v < |run[k].threads| :: !Holds(run[k].threads[v], n)
  {
    var s := run[k];
    RunKeepsInv(run, k);
    assert ThreadInv(s, t) && ThreadInv(s, u) && NodeInv(s, n);
    forall v | 0 <= v < |s.threads| && IsAdding(s.threads[t], n) ensures !Holds(s.threads[v], n) {
      if Holds(s.threads[v], n) { HolderCounts(s, n, v); }
    }
  }

  /** A CAS of `try_get` that succeeds never installs a stale next pointer: it takes off the first node of the list, which is
      not flagged at that time, and the new head is the node after it. */
  lemma PopInstallsSuccessor(run: seq<State>, n: nat, t: nat)
    requires IsListRun(run) && n < |run| && t < |run[n].threads|
    requires run[n].threads[t].Pop? && run[n].head == At(run[n].threads[t].h)
    ensures run[n].list != [] && run[n].list[0] == run[n].threads[t].h < |run[n].nodes|
    ensures run[n].threads[t].next == From(run[n].list, 1)
    ensures !Flagged(run[n].nodes[run[n].list[0]].word)
  {
    RunKeepsInv(run, n);
    assert ThreadInv(run[n], t) && NodeInv(run[n], run[n].threads[t].h);
  }

  // ---------- What try_get and add come to ----------

  /** Thread `t` takes its next step. */
  ghost predicate ActsAlone(s: State, s': State, t: nat) { Enabled(s, Act(t)) && s' == Next(s, Act(t)) }

  /** In `run` nobody but thread `t` takes a step. */
  ghost predicate Alone(run: seq<State>, t: nat) {
    |run| > 0 && forall n | 0 < n < |run| :: ActsAlone(run[n - 1], run[n], t)
  }

  lemma ActKeepsInv(s: State, t: nat) returns (s': State)
    requires Inv(s) && Enabled(s, Act(t))
    ensures s' == Next(s, Act(t)) && ActsAlone(s, s', t) && Inv(s')
  {
    s' := Next(s, Act(t));
    assert Moves(s, s');
    StepKeepsInv(s, s');
  }

  /** A node on the list, as `try_get` finds it: not flagged, and with a reference. */
  lemma ListedIsFree(s: State)
    requires Inv(s) && s.list != []
    ensures s.head == At(s.list[0]) && s.list[0] < |s.nodes| && s.nodes[s.list[0]].place.Listed?
    ensures 0 < s.nodes[s.list[0]].word < 0x7FFF_FFFF
    ensures s.nodes[s.list[0]].next == From(s.list, 1)
  {
    assert NodeInv(s, s.list[0]);
  }

  /** A `try_get` that nobody interferes with, wherever the other threads stand, takes the first node of the list, and comes back
      without a node if there is none. */
  lemma TryGetAlone(s: State, t: nat) returns (run: seq<State>)
    requires Inv(s) && Enabled(s, TryGet(t))
    ensures Alone(run, t) && run[0] == Next(s, TryGet(t))
    ensures var last := run[|run| - 1];
      && Inv(last) && last.threads == s.threads
      && (s.list == [] ==> last == s)
      && (s.list != [] ==> s.list[0] < |last.nodes| && last.nodes[s.list[0]].place == Owned && last.list == s.list[1..])
  {
    assert Moves(s, Next(s, TryGet(t)));
    StepKeepsInv(s, Next(s, TryGet(t)));
    var s0 := Next(s, TryGet(t));
    var s1 := ActKeepsInv(s0, t);
    if s.list == [] {
      assert s1.threads == s.threads;
      run := [s0, s1];
    } else {
      ListedIsFree(s);
      var rest := WinsAlone(s1, t, s.list[0]);
      run := [s0] + rest;
      assert rest[|rest| - 1].threads == s.threads;
    }
  }

  lemma WinsAlone(s: State, t: nat, h: nat) returns (run: seq<State>)
    requires Inv(s) && t < |s.threads| && s.threads[t] == LoadRefs(h) && s.list != [] && s.list[0] == h
    ensures Alone(run, t) && run[0] == s
    ensures var last := run[|run| - 1];
      && Inv(last) && last.threads == s.threads[t := Idle] && last.list == s.list[1..]
      && h < |last.nodes| && last.nodes[h].place == Owned
  {
    var s1, s2 := RefersAlone(s, t, h);
    var rest := PopsAlone(s2, t, h);
    run := [s, s1] + rest;
    assert rest[|rest| - 1].threads == s.threads[t := Idle];
  }

  lemma RefersAlone(s: State, t: nat, h: nat) returns (s1: State, s2: State)
    requires Inv(s) && t < |s.threads| && s.threads[t] == LoadRefs(h) && s.list != [] && s.list[0] == h
    ensures ActsAlone(s, s1, t) && ActsAlone(s1, s2, t) && Inv(s2) && s2.list == s.list && s2.threads == s.threads[t := LoadNext(h)]
  {
    ListedIsFree(s);
    s1 := ActKeepsInv(s, t);
    assert s1.threads == s.threads[t := AddRef(h, s.nodes[h].word)];
    s2 := ActKeepsInv(s1, t);
    assert s2.threads == s.threads[t := LoadNext(h)];
  }

  lemma PopsAlone(s: State, t: nat, h: nat) returns (run: seq<State>)
    requires Inv(s) && t < |s.threads| && s.threads[t] == LoadNext(h) && s.list != [] && s.list[0] == h
    ensures Alone(run, t) && run[0] == s
    ensures var last := run[|run| - 1];
      && Inv(last) && last.threads == s.threads[t := Idle] && last.list == s.list[1..]
      && h < |last.nodes| && last.nodes[h].place == Owned
  {
    ListedIsFree(s);
    var s1 := ActKeepsInv(s, t);
    assert s1.threads == s.threads[t := Pop(h, From(s.list, 1))];
    var s2 := ActKeepsInv(s1, t);
    assert s2.threads == s.threads[t := Won(h)] && s2.list == s.list[1..];
    var s3 := ActKeepsInv(s2, t);
    assert s3.threads == s.threads[t := Idle];
    run := [s, s1, s2, s3];
  }

  /** A thread that is about to put a node on the list, and that nobody interferes with, puts it in front. */
  lemma AddsAlone(s: State, t: nat, n: nat, resume: Resume) returns (run: seq<State>)
    requires Inv(s) && t < |s.threads| && s.threads[t] == Add(n, resume)
    ensures Alone(run, t) && run[0] == s
    ensures var last := run[|run| - 1];
      Inv(last) && last.threads == s.threads[t := After(resume)] && last.list == [n] + s.list && last.head == At(n)
  {
    assert ThreadInv(s, t);
    var s1 := ActKeepsInv(s, t);
    assert s1.threads == s.threads[t := SetNext(n, s.head, resume)];
    var s2 := ActKeepsInv(s1, t);
    assert s2.threads == s.threads[t := SetRefs(n, s.head, resume)];
    var s3 := ActKeepsInv(s2, t);
    assert s3.threads == s.threads[t := Push(n, s.head, resume)];
    var s4 := ActKeepsInv(s3, t);
    assert s4.threads == s.threads[t := After(resume)];
    run := [s, s1, s2, s3, s4];
  }

  /** An `add` that nobody interferes with puts the node in front of the list if nobody has a reference on it, ... */
  lemma AddAlone(s: State, t: nat, n: nat) returns (run: seq<State>)
    requires Inv(s) && Enabled(s, AddNode(t, n)) && forall u | 0 <= u < |s.threads| :: !Holds(s.threads[u], n)
    ensures Alone(run, t) && run[0] == Next(s, AddNode(t, n))
    ensures var last := run[|run| - 1]; Inv(last) && last.threads == s.threads && last.list == [n] + s.list && last.head == At(n)
  {
    var s0 := Next(s, AddNode(t, n));
    assert Moves(s, s0);
    StepKeepsInv(s, s0);
    NobodyHolds(n, s.threads);
    assert NodeInv(s, n);
    run := AddsAlone(s0, t, n, Return);
    assert run[|run| - 1].threads == s.threads;
  }

  /** ... and otherwise leaves that to the thread that drops the last reference. */
  lemma LastHolderAdds(s: State, t: nat, n: nat, seen: Ptr) returns (run: seq<State>)
    requires Inv(s) && t < |s.threads| && s.threads[t] == DropRef(n, seen) && n < |s.nodes| && s.nodes[n].place.Waiting?
    requires forall u | 0 <= u < |s.threads| && u != t :: !Holds(s.threads[u], n)
    ensures Alone(run, t) && run[0] == s
    ensures var last := run[|run| - 1]; Inv(last) && last.list == [n] + s.list && last.head == At(n)
  {
    OnlyOneCounts(Holder(n), s.threads, t);
    assert NodeInv(s, n);
    var s1 := ActKeepsInv(s, t);
    assert s1.threads[t] == Add(n, Retry(seen));
    var rest := AddsAlone(s1, t, n, Retry(seen));
    run := [s] + rest;
  }

  /** From state `i` to state `k`, no thread wins node `n`. */
  ghost predicate NobodyWins(run: seq<State>, i: nat, k: nat, n: nat)
    requires i <= k < |run|
  {
    forall j | i <= j <= k :: Won(n) !in run[j].threads
  }

  lemma StaysAway(s: State, step: Step, n: nat)
    requires Enabled(s, step) && n < |s.nodes| && !s.nodes[n].place.Owned?
    requires Won(n) !in s.threads
    ensures n < |Next(s, step).nodes| && !Next(s, step).nodes[n].place.Owned?
  {
  }

  lemma AddGivesAway(s: State, t: nat, n: nat)
    requires Enabled(s, AddNode(t, n))
    ensures n < |Next(s, AddNode(t, n)).nodes| && !Next(s, AddNode(t, n)).nodes[n].place.Owned?
  {
  }

  lemma StaysAwayInRun(run: seq<State>, k: nat, n: nat)
    requires IsListRun(run) && 0 < k < |run| && n < |run[k - 1].nodes| && !run[k - 1].nodes[n].place.Owned?
    requires Won(n) !in run[k - 1].threads
    ensures n < |run[k].nodes| && !run[k].nodes[n].place.Owned?
  {
    assert Moves(run[k - 1], run[k]);
    var step :| Enabled(run[k - 1], step) && run[k] == Next(run[k - 1], step);
    StaysAway(run[k - 1], step, n);
  }

  lemma {:induction false} AddedStaysAway(run: seq<State>, i: nat, k: nat, n: nat)
    requires IsListRun(run) && i < k < |run| && n < |run[i + 1].nodes| && !run[i + 1].nodes[n].place.Owned?
    requires NobodyWins(run, i + 1, k, n)
    ensures n < |run[k].nodes| && !run[k].nodes[n].place.Owned?
  {
    if k > i + 1 {
      AddedStaysAway(run, i, k - 1, n);
      StaysAwayInRun(run, k, n);
    }
  }

  /** No node that was added is lost: unless some `try_get` has won it since, it is on the list whenever no thread is inside `add` or
      `try_get`. */
  lemma NoNodeIsLost(run: seq<State>, i: nat, k: nat, t: nat, n: nat)
    requires IsListRun(run) && i < k < |run| && Enabled(run[i], AddNode(t, n)) && run[i + 1] == Next(run[i], AddNode(t, n))
    requires NobodyWins(run, i + 1, k, n) && forall u | 0 <= u < |run[k].threads| :: run[k].threads[u].Idle?
    ensures n in run[k].list
  {
    AddGivesAway(run[i], t, n);
    AddedStaysAway(run, i, k, n);
    RunKeepsInv(run, k);
    assert NodeInv(run[k], n);
    NobodyHolds(n, run[k].threads);
  }

  // ---------- What it means to come back without a node ----------

  /** The thread is inside `try_get`, and the head that it has read last was null. */
  predicate HasSeenNull(pc: Pc) {
    || (pc.DropRef? && pc.seen == Null)
    || ((pc.Add? || pc.SetNext? || pc.SetRefs? || pc.Push? || pc.Undo?) && pc.resume == Retry(Null))
  }

  predicate ReadsNull(s: State, pc: Pc) { s.head == Null && (pc.LoadHead? || pc.Pop?) }

  /** The step with which a thread leaves `try_get` without having won a node. */
  ghost predicate LeavesEmptyHanded(s: State, s': State, t: nat) {
    ActsAlone(s, s', t) && s'.threads[t].Idle? && !s.threads[t].Won?
    && !((s.threads[t].Push? || s.threads[t].Undo?) && s.threads[t].resume.Return?)
  }

  lemma HasSeenNullSince(s: State, step: Step, t: nat)
    requires Enabled(s, step) && t < |s.threads| && HasSeenNull(Next(s, step).threads[t])
    ensures HasSeenNull(s.threads[t]) || ReadsNull(s, s.threads[t])
  {
  }

  /** A `try_get` that comes back without a node has seen the list empty: at the time when it last read the head, or was told by a
      failed exchange what it is, there was no node on the list. */
  lemma NoNodeMeansEmpty(run: seq<State>, n: nat, t: nat) returns (m: nat)
    requires IsListRun(run) && n + 1 < |run| && LeavesEmptyHanded(run[n], run[n + 1], t)
    ensures m <= n && t < |run[m].threads| && ReadsNull(run[m], run[m].threads[t]) && run[m].list == []
    ensures forall i | m < i <= n :: t < |run[i].threads| && HasSeenNull(run[i].threads[t])
  {
    m := n;
    if HasSeenNull(run[n].threads[t]) { m := ReadNullBefore(run, n, t); }
    RunKeepsInv(run, m);
  }

  lemma ReadNullBefore(run: seq<State>, n: nat, t: nat) returns (m: nat)
    requires IsListRun(run) && n < |run| && t < |run[n].threads| && HasSeenNull(run[n].threads[t])
    ensures m < n && t < |run[m].threads| && ReadsNull(run[m], run[m].threads[t])
    ensures forall i | m < i <= n :: t < |run[i].threads| && HasSeenNull(run[i].threads[t])
  {
    var holds := (i: nat) => i < |run| && t < |run[i].threads| && HasSeenNull(run[i].threads[t]);
    var event := (i: nat) => 0 < i < |run| && t < |run[i - 1].threads| && ReadsNull(run[i - 1], run[i - 1].threads[t]);
    forall i: nat | i <= n ensures HoldsFrom(holds, event, i) {
      if holds(i) { SeesNullWithin(run, i, t); }
    }
    var k := Since(holds, event, n);
    m := k - 1;
    forall i | m < i <= n ensures t < |run[i].threads| && HasSeenNull(run[i].threads[t]) { assert holds(i); }
  }

  lemma SeesNullWithin(run: seq<State>, i: nat, t: nat)
    requires IsListRun(run) && i < |run| && t < |run[i].threads| && HasSeenNull(run[i].threads[t])
    ensures i > 0 && t < |run[i - 1].threads|
    ensures HasSeenNull(run[i - 1].threads[t]) || ReadsNull(run[i - 1], run[i - 1].threads[t])
  {
    assert i > 0;
    assert Moves(run[i - 1], run[i]);
    var step :| Enabled(run[i - 1], step) && run[i] == Next(run[i - 1], step);
    HasSeenNullSince(run[i - 1], step, t);
  }
}
