/** The object pool of src/pool.h: two lock-free stacks of nodes and a cache per thread, as a state machine over its atomic
    steps, and the construction of the two stacks.

    A stack's head and a node's `next` are 64-bit words that hold a node's index and, above it, the low 32 bits of the node's
    tag, which counts how often the node has been pushed. Nodes of the collective are never kept in a cache. */
module PoolStacks {
  import Links
  import opened Runs

  /** NULL_INDEX, or an index with a tag. */
  datatype Word = Null | Tagged(index: nat, tag: nat)

  datatype Kind = Market | Collective

  /** History: where a node is. */
  datatype Place =
    | Listed(k: Kind)
    | Cached(t: nat)
    | Held             // by a PooledObject
    | Moving(t: nat)   // thread `t` is pushing it

  datatype Node = Node(next: Word, tag: nat, collective: bool, place: Place)

  datatype Stack = Stack(
    head: Word,
    list: seq<nat>)    // history: the nodes on the stack, the head last

  /** `seen` is history: the tag of the node that `was` leads to, when `was` was loaded. */
  datatype Pc =
    | Idle
    | PopLoad(k: Kind)                                    // about to load the head
    | PopRead(k: Kind, was: Word, seen: nat)              // about to read the next word of the node
    | PopSwap(k: Kind, was: Word, seen: nat, next: Word)  // about to CAS the head
    | PushLoad(k: Kind, n: nat)                           // about to load the head
    | PushTag(k: Kind, n: nat, was: Word)                 // about to advance the tag of the node
    | PushLink(k: Kind, n: nat, was: Word, word: Word)    // about to store the next word of the node
    | PushSwap(k: Kind, n: nat, was: Word, word: Word)    // about to CAS the head

  datatype State = State(
    market: Stack,
    collective: Stack,
    nodes: seq<Node>,
    caches: seq<seq<nat>>,
    threads: seq<Pc>,
    held: set<nat>)

  datatype Step =
    | Get(t: nat)                      // try_pop
    | Release(t: nat, n: nat)          // of a node that some PooledObject holds
    | Act(t: nat, spurious: bool)      // the next step; a weak CAS may fail for no reason

  /** min(TC_SIZE, MAX_NODE), with TC_SIZE 10 and room for 7 pointers in a cache line. */
  const CACHE_CAPACITY: nat := 7

  /** The part of a tag that fits into a word. */
  function Low(x: int): nat { x % 0x1_0000_0000 }

  function Of(s: State, k: Kind): Stack { if k.Market? then s.market else s.collective }

  function With(s: State, k: Kind, stack: Stack): State {
    if k.Market? then s.(market := stack) else s.(collective := stack)
  }

  function Goto(s: State, t: nat, pc: Pc): State
    requires t < |s.threads|
  {
    s.(threads := s.threads[t := pc])
  }

  function SetNode(s: State, n: nat, node: Node): State
    requires n < |s.nodes|
  {
    s.(nodes := s.nodes[n := node])
  }

  predicate Enabled(s: State, step: Step) {
    && step.t < |s.threads| == |s.caches|
    && match step
       case Get(t) => s.threads[t].Idle? && (s.caches[t] != [] ==> s.caches[t][|s.caches[t]| - 1] < |s.nodes|)
       case Release(t, n) => s.threads[t].Idle? && n in s.held && n < |s.nodes|
       case Act(t, _) =>
         match s.threads[t]
         case Idle => false
         case PopLoad(k) => Of(s, k).head.Tagged? ==> Of(s, k).head.index < |s.nodes|
         case PopRead(k, was, _) => was.Tagged? ==> was.index < |s.nodes|
         case PopSwap(k, was, _, _) =>
           && was.Tagged? && was.index < |s.nodes|
           && (Of(s, k).head.Tagged? ==> Of(s, k).head.index < |s.nodes|)
         case PushLoad(_, n) => n < |s.nodes|
         case PushTag(_, n, _) => n < |s.nodes|
         case PushLink(_, n, _, _) => n < |s.nodes|
         case PushSwap(_, n, _, _) => n < |s.nodes|
  }

  /** The program counter of a pop that has just seen `head`. */
  function Looking(s: State, k: Kind, head: Word): Pc
    requires head.Tagged? ==> head.index < |s.nodes|
  {
    PopRead(k, head, if head.Tagged? then s.nodes[head.index].tag else 0)
  }

  function Next(s: State, step: Step): State
    requires Enabled(s, step)
  {
    match step
    case Get(t) =>
      if s.caches[t] == [] then Goto(s, t, PopLoad(Market))
      else
        var last := |s.caches[t]| - 1;
        var n := s.caches[t][last];
        SetNode(s, n, s.nodes[n].(place := Held)).(caches := s.caches[t := s.caches[t][..last]], held := s.held + {n})
    case Release(t, n) =>
      var s1 := s.(held := s.held - {n});
      if s.nodes[n].collective then
        Goto(SetNode(s1, n, s.nodes[n].(place := Moving(t))), t, PushLoad(Collective, n))
      else if |s.caches[t]| < CACHE_CAPACITY then
        SetNode(s1, n, s.nodes[n].(place := Cached(t))).(caches := s.caches[t := s.caches[t] + [n]])
      else
        Goto(SetNode(s1, n, s.nodes[n].(place := Moving(t))), t, PushLoad(Market, n))
    case Act(t, spurious) =>
      match s.threads[t]
      case Idle => s
      case PopLoad(k) => Goto(s, t, Looking(s, k, Of(s, k).head))
      case PopRead(k, was, seen) =>
        if was.Tagged? then Goto(s, t, PopSwap(k, was, seen, s.nodes[was.index].next))
        else if k.Market? then Goto(s, t, PopLoad(Collective))
        else Goto(s, t, Idle)
      case PopSwap(k, was, seen, next) =>
        if Of(s, k).head == was && !spurious then
          var list := Of(s, k).list;
          var s1 := With(s, k, Stack(next, if list == [] then [] else list[..|list| - 1]));
          Goto(SetNode(s1, was.index, s.nodes[was.index].(place := Held)), t, Idle).(held := s.held + {was.index})
        else
          Goto(s, t, Looking(s, k, Of(s, k).head))
      case PushLoad(k, n) => Goto(s, t, PushTag(k, n, Of(s, k).head))
      case PushTag(k, n, was) =>
        var tag := s.nodes[n].tag;
        Goto(SetNode(s, n, s.nodes[n].(tag := tag + 1)), t, PushLink(k, n, was, Tagged(n, Low(tag))))
      case PushLink(k, n, was, word) =>
        Goto(SetNode(s, n, s.nodes[n].(next := was)), t, PushSwap(k, n, was, word))
      case PushSwap(k, n, was, word) =>
        if Of(s, k).head == was && !spurious then
          var s1 := With(s, k, Stack(word, Of(s, k).list + [n]));
          Goto(SetNode(s1, n, s.nodes[n].(place := Listed(k))), t, Idle)
        else
          Goto(s, t, PushLink(k, n, Of(s, k).head, word))
  }

  // ---------- Construction ----------

  /** The word that leads to a node which has been pushed `tag` times. */
  function WordOf(n: nat, tag: nat): Word { Tagged(n, Low(tag - 1)) }

  /** Node `n` after construction: each list runs upward through its nodes, and each node has been pushed once. */
  function Built(n: nat, num: nat, collectiveNum: nat): Node {
    var last := if n < collectiveNum then collectiveNum - 1 else num - 1;
    Node(if n == last then Null else Tagged(n + 1, 0), 1, n < collectiveNum,
         Listed(if n < collectiveNum then Collective else Market))
  }

  function Downward(lo: nat, hi: nat): seq<nat>
    requires lo <= hi
  {
    seq(hi - lo, i requires 0 <= i < hi - lo => hi - 1 - i)
  }

  ghost predicate Init(s: State) {
    exists collectiveNum: nat :: InitWith(s, collectiveNum)
  }

  ghost predicate InitWith(s: State, collectiveNum: nat) {
    var num := |s.nodes|;
    && 0 < collectiveNum < num < 0xFFFF_FFFF
    && s.market == Stack(Tagged(collectiveNum, 0), Downward(collectiveNum, num))
    && s.collective == Stack(Tagged(0, 0), Downward(0, collectiveNum))
    && (forall n | 0 <= n < num :: s.nodes[n] == Built(n, num, collectiveNum))
    && |s.threads| == |s.caches| && s.held == {}
    && (forall t | 0 <= t < |s.threads| :: s.threads[t] == Idle && s.caches[t] == [])
  }

  /** The local list that the constructor appends nodes to; its head and its tail. */
  datatype Ends = NoNodes | Ends(head: nat, tail: nat)

  /** LinkedList::push_back; nodes[n] has not been pushed. */
  method PushBack(nodes: seq<Node>, list: Ends, n: nat) returns (nodes': seq<Node>, list': Ends)
    requires n < |nodes| && (list.Ends? ==> list.tail < |nodes| && list.tail != n)
    ensures |nodes'| == |nodes|
    ensures list' == if list.NoNodes? then Ends(n, n) else Ends(list.head, n)
    ensures nodes'[n] == if list.NoNodes? then nodes[n] else nodes[n].(tag := nodes[n].tag + 1)
    ensures list.Ends? ==> nodes'[list.tail] == nodes[list.tail].(next := Tagged(n, Low(nodes[n].tag)))
    ensures forall m | 0 <= m < |nodes| && m != n && (list.Ends? ==> m != list.tail) :: nodes'[m] == nodes[m]
  {
    if list.Ends? {
      nodes' := nodes[n := nodes[n].(tag := nodes[n].tag + 1)];
      nodes' := nodes'[list.tail := nodes'[list.tail].(next := Tagged(n, Low(nodes[n].tag)))];
      list' := Ends(list.head, n);
    } else {
      nodes' := nodes;
      list' := Ends(n, n);
    }
  }

  /** How a node looks while the constructor's loop has come to node `i`. */
  function Building(n: nat, i: nat, collectiveNum: nat): Node {
    var first := n == 0 || n == collectiveNum;
    var last := n == i - 1 || n == collectiveNum - 1;
    Node(if last || n >= i then Null else Tagged(n + 1, 0), if n >= i || first then 0 else 1, n < i && n < collectiveNum,
         Listed(if n < collectiveNum then Collective else Market))
  }

  /** The pool, or the stack at which construction failed. */
  datatype Result<T> = Success(value: T) | Failure(at: Kind)

  /** `init`. It succeeds exactly if each of the two lists gets a node: `push_into` reads the tag of a list's first node without
      looking whether there is one, the market's before the collective's. */
  method Build(num: nat, collectiveNum: nat, threadNum: nat) returns (r: Result<State>)
    requires num < 0xFFFF_FFFF
    ensures r.Success? <==> 0 < collectiveNum < num
    ensures r.Success? ==> InitWith(r.value, collectiveNum) && |r.value.nodes| == num && |r.value.threads| == threadNum
    ensures r.Failure? ==> r.at == if num <= collectiveNum then Market else Collective
  {
    var nodes := seq(num, n requires 0 <= n < num => Node(Null, 0, false, Listed(if n < collectiveNum then Collective else Market)));
    var market, collective := NoNodes, NoNodes;
    var i := 0;
    while i < num
      invariant 0 <= i <= num == |nodes|
      invariant collective == if i == 0 || collectiveNum == 0 then NoNodes
                              else Ends(0, if i <= collectiveNum then i - 1 else collectiveNum - 1)
      invariant market == if i <= collectiveNum then NoNodes else Ends(collectiveNum, i - 1)
      invariant forall n | 0 <= n < num :: nodes[n] == Building(n, i, collectiveNum)
    {
      nodes := nodes[i := nodes[i].(collective := i < collectiveNum)];
      if i < collectiveNum {
        nodes, collective := PushBack(nodes, collective, i);
      } else {
        nodes, market := PushBack(nodes, market, i);
      }
      i := i + 1;
    }
    var pushed, marketHead, collectiveHead;
    pushed, nodes, marketHead := PushInto(nodes, market);
    if !pushed { return Failure(Market); }
    pushed, nodes, collectiveHead := PushInto(nodes, collective);
    if !pushed { return Failure(Collective); }
    r := Success(State(Stack(marketHead, Downward(collectiveNum, num)), Stack(collectiveHead, Downward(0, collectiveNum)), nodes,
                       seq(threadNum, _ => []), seq(threadNum, _ => Idle), {}));
  }

  /** push_into onto an empty stack, before there are other threads; `head` is the stack's new head. A list without nodes has no
      first node whose tag could be advanced. */
  method PushInto(nodes: seq<Node>, list: Ends) returns (ok: bool, nodes': seq<Node>, head: Word)
    requires list.Ends? ==> list.head < |nodes| && list.tail < |nodes|
    ensures ok <==> list.Ends?
    ensures |nodes'| == |nodes|
    ensures ok ==> head == Tagged(list.head, Low(nodes[list.head].tag))
    ensures ok ==> nodes'[list.tail].next == Null
    ensures ok ==> forall n | 0 <= n < |nodes| && n != list.tail :: nodes'[n].next == nodes[n].next
    ensures ok ==> nodes'[list.head].tag == nodes[list.head].tag + 1
    ensures ok ==> forall n | 0 <= n < |nodes| && n != list.head :: nodes'[n].tag == nodes[n].tag
    ensures forall n | 0 <= n < |nodes| :: nodes'[n].collective == nodes[n].collective && nodes'[n].place == nodes[n].place
    ensures !ok ==> nodes' == nodes
  {
    if list.NoNodes? { return false, nodes, Null; }
    nodes' := nodes[list.head := nodes[list.head].(tag := nodes[list.head].tag + 1)];
    ok, head := true, Tagged(list.head, Low(nodes[list.head].tag));
    nodes' := nodes'[list.tail := nodes'[list.tail].(next := Null)];
  }

  /** Ten nodes of which none, or all, are the collective's: neither pool can be constructed. */
  method OneListHasNoNode(threadNum: nat) returns (noneCollective: Result<State>, allCollective: Result<State>)
    ensures noneCollective == Failure(Collective) && allCollective == Failure(Market)
  {
    noneCollective := Build(10, 0, threadNum);
    allCollective := Build(10, 10, threadNum);
  }

  // ---------- Runs ----------

  /** Since a pop loaded the head, the node that it led to has been pushed fewer than 2^32 times. */
  ghost predicate Near(s: State) {
    forall t | 0 <= t < |s.threads| :: InTime(s, s.threads[t])
  }

  predicate InTime(s: State, pc: Pc) {
    pc.PopSwap? && pc.was.Tagged? && pc.was.index < |s.nodes| ==> s.nodes[pc.was.index].tag - pc.seen < 0x1_0000_0000
  }

  ghost predicate Moves(s: State, s': State) {
    Near(s) && exists step :: Enabled(s, step) && s' == Next(s, step)
  }

  ghost predicate IsPoolRun(run: seq<State>) { IsRun(Init, Moves, run) }

  // ---------- The invariant ----------

  predicate IsPush(pc: Pc) { pc.PushLoad? || pc.PushTag? || pc.PushLink? || pc.PushSwap? }

  /** The word that leads to the topmost of the nodes. */
  function Top(s: State, list: seq<nat>): Word {
    if list == [] || list[|list| - 1] >= |s.nodes| then Null else WordOf(list[|list| - 1], s.nodes[list[|list| - 1]].tag)
  }

  ghost predicate Linked(s: State, list: seq<nat>, k: Kind, i: nat)
    requires i < |list|
  {
    && list[i] < |s.nodes|
    && s.nodes[list[i]].place == Listed(k)
    && s.nodes[list[i]].tag > 0
    && (i > 0 ==> list[i - 1] < |s.nodes|)
    && s.nodes[list[i]].next == Top(s, list[..i])
  }

  ghost predicate StackInv(s: State, k: Kind) {
    var stack := Of(s, k);
    && Links.Distinct(stack.list)
    && (forall i | 0 <= i < |stack.list| :: Linked(s, stack.list, k, i))
    && (stack.list != [] ==> stack.list[|stack.list| - 1] < |s.nodes|)
    && stack.head == Top(s, stack.list)
  }

  ghost predicate CacheInv(s: State, t: nat)
    requires t < |s.caches|
  {
    && |s.caches[t]| <= CACHE_CAPACITY
    && Links.Distinct(s.caches[t])
    && forall i | 0 <= i < |s.caches[t]| :: s.caches[t][i] < |s.nodes| && s.nodes[s.caches[t][i]].place == Cached(t)
  }

  /** A node is where its place says, and the collective's nodes are not in a cache or on the market. */
  ghost predicate NodeInv(s: State, n: nat)
    requires n < |s.nodes|
  {
    match s.nodes[n].place
    case Listed(k) => n in Of(s, k).list && (s.nodes[n].collective <==> k.Collective?)
    case Cached(t) => t < |s.caches| && n in s.caches[t] && !s.nodes[n].collective
    case Held => n in s.held
    case Moving(t) => t < |s.threads| && IsPush(s.threads[t]) && s.threads[t].n == n
  }

  ghost predicate HeldInv(s: State) { forall n | n in s.held :: n < |s.nodes| && s.nodes[n].place == Held }

  /** The tag of the node has been advanced by a push that has not yet completed. */
  predicate Advanced(s: State, n: nat)
    requires n < |s.nodes|
  {
    var place := s.nodes[n].place;
    place.Moving? && place.t < |s.threads| && (s.threads[place.t].PushLink? || s.threads[place.t].PushSwap?)
  }

  /** What a pop knows about the node that it has seen as the head. */
  ghost predicate Seen(s: State, was: Word, seen: nat) {
    was.Tagged? ==>
      && was.index < |s.nodes|
      && 0 < seen <= s.nodes[was.index].tag
      && was == WordOf(was.index, seen)
      && (Advanced(s, was.index) ==> seen < s.nodes[was.index].tag)
  }

  ghost predicate ThreadInv(s: State, t: nat)
    requires t < |s.threads|
  {
    match s.threads[t]
    case PopRead(_, was, seen) => Seen(s, was, seen)
    case PopSwap(_, was, seen, next) =>
      Seen(s, was, seen) && was.Tagged? && (s.nodes[was.index].tag == seen ==> s.nodes[was.index].next == next)
    case PushLoad(k, n) => Pushes(s, t, k, n)
    case PushTag(k, n, _) => Pushes(s, t, k, n)
    case PushLink(k, n, _, word) => Pushes(s, t, k, n) && s.nodes[n].tag > 0 && word == WordOf(n, s.nodes[n].tag)
    case PushSwap(k, n, was, word) =>
      Pushes(s, t, k, n) && s.nodes[n].tag > 0 && word == WordOf(n, s.nodes[n].tag) && s.nodes[n].next == was
    case _ => true
  }

  ghost predicate Pushes(s: State, t: nat, k: Kind, n: nat) {
    n < |s.nodes| && s.nodes[n].place == Moving(t) && (s.nodes[n].collective <==> k.Collective?)
  }

  /** What the stacks, the caches and the holders have, and that nothing is missing. */
  ghost predicate Places(s: State) {
    && StackInv(s, Market) && StackInv(s, Collective) && HeldInv(s)
    && (forall t | 0 <= t < |s.caches| :: CacheInv(s, t))
    && (forall n | 0 <= n < |s.nodes| :: NodeInv(s, n))
  }

  ghost predicate Inv(s: State) {
    && |s.threads| == |s.caches|
    && Places(s)
    && (forall t | 0 <= t < |s.threads| :: ThreadInv(s, t))
  }

  lemma BuiltStack(s: State, c: nat, k: Kind)
    requires InitWith(s, c)
    ensures StackInv(s, k)
  {
    var list := Of(s, k).list;
    var last := if k.Market? then |s.nodes| - 1 else c - 1;
    forall i | 0 <= i < |list| ensures Linked(s, list, k, i) { assert list[i] == last - i; }
  }

  lemma BuiltNodes(s: State, c: nat, n: nat)
    requires InitWith(s, c) && n < |s.nodes|
    ensures NodeInv(s, n)
  {
    if n < c { assert Downward(0, c)[c - 1 - n] == n; } else { assert Downward(c, |s.nodes|)[|s.nodes| - 1 - n] == n; }
  }

  lemma InitInv(s: State)
    requires Init(s)
    ensures Inv(s)
  {
    var c: nat :| InitWith(s, c);
    BuiltStack(s, c, Market);
    BuiltStack(s, c, Collective);
    forall n | 0 <= n < |s.nodes| ensures NodeInv(s, n) { BuiltNodes(s, c, n); }
  }

  // ---------- Successful exchanges ----------

  /** While a pop is in time, its CAS finds the word it expects only if the node has not been pushed since. */
  lemma MatchMeansUntouched(s: State, k: Kind, was: Word, seen: nat)
    requires StackInv(s, k) && Seen(s, was, seen) && was.Tagged? && Of(s, k).head == was
    ensures Of(s, k).list != [] && was.index == Of(s, k).list[|Of(s, k).list| - 1]
    ensures Low(s.nodes[was.index].tag - seen) == 0
    ensures s.nodes[was.index].tag - seen < 0x1_0000_0000 ==> s.nodes[was.index].tag == seen
  {
  }

  /** A successful pop takes the topmost node and installs the word of the node below it. */
  lemma PopTakesTop(s: State, t: nat)
    requires Inv(s) && Near(s) && Enabled(s, Act(t, false)) && s.threads[t].PopSwap?
    requires var pc := s.threads[t]; Of(s, pc.k).head == pc.was
    ensures var pc := s.threads[t]; var list := Of(s, pc.k).list;
      list != [] && pc.was.index == list[|list| - 1] && list[|list| - 1] < |s.nodes| && pc.next == Top(s, list[..|list| - 1])
        && s.nodes[pc.was.index].place == Listed(pc.k)
  {
    var pc := s.threads[t];
    var list := Of(s, pc.k).list;
    assert ThreadInv(s, t) && InTime(s, pc);
    assert StackInv(s, pc.k);
    MatchMeansUntouched(s, pc.k, pc.was, pc.seen);
    assert Linked(s, list, pc.k, |list| - 1);
  }

  // ---------- Preservation ----------

  /** A stack is as it was if its own nodes and its head are. */
  lemma StackKept(s: State, s': State, k: Kind)
    requires StackInv(s, k) && Of(s', k) == Of(s, k) && |s'.nodes| == |s.nodes|
    requires forall n | 0 <= n < |s.nodes| && s.nodes[n].place == Listed(k) :: s'.nodes[n] == s.nodes[n]
    ensures StackInv(s', k)
  {
    var list := Of(s, k).list;
    forall i | 0 <= i < |list| ensures Linked(s', list, k, i) {
      assert Linked(s, list, k, i);
      if i > 0 { assert Linked(s, list, k, i - 1); assert list[..i][i - 1] == list[i - 1]; }
    }
    if list != [] { assert Linked(s, list, k, |list| - 1); }
  }

  lemma PushOntoStack(s: State, s': State, k: Kind, n: nat)
    requires StackInv(s, k) && |s'.nodes| == |s.nodes| && n < |s.nodes| && !s.nodes[n].place.Listed? && s.nodes[n].tag > 0
    requires s.nodes[n].next == Of(s, k).head
    requires s'.nodes == s.nodes[n := s.nodes[n].(place := Listed(k))]
    requires Of(s', k) == Stack(WordOf(n, s.nodes[n].tag), Of(s, k).list + [n])
    ensures StackInv(s', k)
  {
    var list, list' := Of(s, k).list, Of(s', k).list;
    forall i | 0 <= i < |list'| ensures Linked(s', list', k, i) {
      assert list'[..i] == list[..i];
      if i < |list| {
        assert Linked(s, list, k, i);
        if i > 0 { assert Linked(s, list, k, i - 1); assert list[..i][i - 1] == list[i - 1]; }
      } else {
        assert list[..i] == list;
        if i > 0 { assert Linked(s, list, k, i - 1); }
      }
    }
    forall i | 0 <= i < |list| ensures list[i] != n { assert Linked(s, list, k, i); }
  }

  lemma PopOffStack(s: State, s': State, k: Kind)
    requires StackInv(s, k) && |s'.nodes| == |s.nodes| && Of(s, k).list != []
    requires var list := Of(s, k).list; var n := list[|list| - 1];
      s'.nodes == s.nodes[n := s.nodes[n].(place := Held)] && Of(s', k) == Stack(Top(s, list[..|list| - 1]), list[..|list| - 1])
    ensures StackInv(s', k)
  {
    var list, list' := Of(s, k).list, Of(s', k).list;
    forall i | 0 <= i < |list'| ensures Linked(s', list', k, i) {
      assert Linked(s, list, k, i);
      assert list'[..i] == list[..i];
      if i > 0 { assert Linked(s, list, k, i - 1); assert list[..i][i - 1] == list[i - 1]; }
    }
    if list' != [] { assert Linked(s, list, k, |list'| - 1); }
  }

  /** The step is a successful exchange of a head by a pop. */
  predicate Pops(s: State, step: Step) {
    step.Act? && step.t < |s.threads| && !step.spurious
    && s.threads[step.t].PopSwap? && Of(s, s.threads[step.t].k).head == s.threads[step.t].was
  }

  /** The step is a successful exchange of a head by a push. */
  predicate PushesNode(s: State, step: Step) {
    step.Act? && step.t < |s.threads| && !step.spurious
    && s.threads[step.t].PushSwap? && Of(s, s.threads[step.t].k).head == s.threads[step.t].was
  }

  /** Any other step of an operation changes at most the node that the thread is pushing, and not its place. */
  ghost predicate Private(s: State, s': State, t: nat) {
    && t < |s.threads| && t < |s'.threads| && s'.threads == s.threads[t := s'.threads[t]]
    && s'.market == s.market && s'.collective == s.collective && s'.caches == s.caches && s'.held == s.held
    && |s'.nodes| == |s.nodes|
    && (forall n | 0 <= n < |s.nodes| ::
          s'.nodes[n] == s.nodes[n] || (s.nodes[n].place == Moving(t) && s'.nodes[n] == s.nodes[n].(tag := s'.nodes[n].tag, next := s'.nodes[n].next)))
    && (IsPush(s.threads[t]) <==> IsPush(s'.threads[t]))
    && (IsPush(s.threads[t]) ==> s'.threads[t].n == s.threads[t].n)
  }

  lemma ActIsPrivate(s: State, t: nat, spurious: bool)
    requires Enabled(s, Act(t, spurious)) && ThreadInv(s, t)
    requires !Pops(s, Act(t, spurious)) && !PushesNode(s, Act(t, spurious))
    ensures Private(s, Next(s, Act(t, spurious)), t)
  {
  }

  lemma PrivateKeepsPlaces(s: State, s': State, t: nat)
    requires Places(s) && Private(s, s', t)
    ensures Places(s')
  {
    StackKept(s, s', Market);
    StackKept(s, s', Collective);
    forall u | 0 <= u < |s'.caches| ensures CacheInv(s', u) { assert CacheInv(s, u); }
    forall n | 0 <= n < |s'.nodes| ensures NodeInv(s', n) { assert NodeInv(s, n); }
  }

  /** Node `n`, the topmost of stack `k`, has gone to a holder. */
  ghost predicate Popped(s: State, s': State, k: Kind, n: nat, t: nat) {
    var list := Of(s, k).list;
    && n < |s.nodes| && t < |s.threads|
    && list != [] && n == list[|list| - 1]
    && !IsPush(s.threads[t])
    && s' == Goto(With(s, k, Stack(Top(s, list[..|list| - 1]), list[..|list| - 1])), t, Idle)
               .(nodes := s.nodes[n := s.nodes[n].(place := Held)], held := s.held + {n})
  }

  lemma PopIsPopped(s: State, t: nat)
    requires Inv(s) && Near(s) && Enabled(s, Act(t, false)) && Pops(s, Act(t, false))
    ensures Popped(s, Next(s, Act(t, false)), s.threads[t].k, s.threads[t].was.index, t)
  {
    PopTakesTop(s, t);
  }

  lemma PopKeepsPlaces(s: State, s': State, k: Kind, n: nat, t: nat)
    requires Places(s) && Popped(s, s', k, n, t)
    ensures Places(s')
  {
    assert StackInv(s, k);
    assert Linked(s, Of(s, k).list, k, |Of(s, k).list| - 1);
    PopOffStack(s, s', k);
    StackKept(s, s', if k.Market? then Collective else Market);
    forall u | 0 <= u < |s'.caches| ensures CacheInv(s', u) { assert CacheInv(s, u); }
    forall m | 0 <= m < |s'.nodes| ensures NodeInv(s', m) {
      assert NodeInv(s, m);
      if m != n && m in Of(s, k).list { LastIsElsewhere(Of(s, k).list, m); }
    }
  }

  lemma LastIsElsewhere(list: seq<nat>, n: nat)
    requires n in list && n != list[|list| - 1]
    ensures n in list[..|list| - 1]
  {
  }

  lemma PushKeepsPlaces(s: State, t: nat)
    requires Inv(s) && Enabled(s, Act(t, false)) && PushesNode(s, Act(t, false))
    ensures Places(Next(s, Act(t, false)))
  {
    var s' := Next(s, Act(t, false));
    var pc := s.threads[t];
    assert ThreadInv(s, t);
    PushOntoStack(s, s', pc.k, pc.n);
    StackKept(s, s', if pc.k.Market? then Collective else Market);
    forall u | 0 <= u < |s'.caches| ensures CacheInv(s', u) { assert CacheInv(s, u); }
    forall n | 0 <= n < |s'.nodes| ensures NodeInv(s', n) {
      assert NodeInv(s, n);
      if n == pc.n { assert Of(s', pc.k).list[|Of(s, pc.k).list|] == n; }
    }
  }

  lemma GetKeepsPlaces(s: State, t: nat)
    requires Inv(s) && Enabled(s, Get(t)) && s.caches[t] != []
    ensures Places(Next(s, Get(t)))
  {
    var s' := Next(s, Get(t));
    assert CacheInv(s, t);
    var n := s.caches[t][|s.caches[t]| - 1];
    StackKept(s, s', Market);
    StackKept(s, s', Collective);
    forall u | 0 <= u < |s'.caches| ensures CacheInv(s', u) { assert CacheInv(s, u); }
    forall m | 0 <= m < |s'.nodes| ensures NodeInv(s', m) {
      assert NodeInv(s, m);
      if m != n && m in s.caches[t] { LastIsElsewhere(s.caches[t], m); }
    }
  }

  lemma ReleaseKeepsCache(s: State, t: nat, n: nat, u: nat)
    requires Enabled(s, Release(t, n)) && HeldInv(s) && u < |s.caches| && CacheInv(s, u)
    ensures CacheInv(Next(s, Release(t, n)), u)
  {
    assert forall i | 0 <= i < |s.caches[u]| :: s.caches[u][i] != n;
  }

  lemma ReleaseKeepsNode(s: State, t: nat, n: nat, m: nat)
    requires Enabled(s, Release(t, n)) && m < |s.nodes| && NodeInv(s, m) && NodeInv(s, n) && s.nodes[n].place == Held
    ensures NodeInv(Next(s, Release(t, n)), m)
  {
    var s' := Next(s, Release(t, n));
    if s'.nodes[m].place == Cached(t) {
      assert m != n ==> m in s.caches[t];
      assert s'.caches[t] == s.caches[t] + [n] || m in s'.caches[t];
    }
  }

  lemma ReleaseKeepsPlaces(s: State, t: nat, n: nat)
    requires Inv(s) && Enabled(s, Release(t, n))
    ensures Places(Next(s, Release(t, n)))
  {
    var s' := Next(s, Release(t, n));
    StackKept(s, s', Market);
    StackKept(s, s', Collective);
    forall u | 0 <= u < |s'.caches| ensures CacheInv(s', u) { ReleaseKeepsCache(s, t, n, u); }
    forall m | 0 <= m < |s'.nodes| ensures NodeInv(s', m) { ReleaseKeepsNode(s, t, n, m); }
  }

  lemma StepKeepsPlaces(s: State, step: Step)
    requires Inv(s) && Near(s) && Enabled(s, step)
    ensures Places(Next(s, step))
  {
    match step
    case Get(t) => if s.caches[t] == [] { PrivateKeepsPlaces(s, Next(s, step), t); } else { GetKeepsPlaces(s, t); }
    case Release(t, n) => ReleaseKeepsPlaces(s, t, n);
    case Act(t, spurious) =>
      assert ThreadInv(s, t);
      if Pops(s, step) { PopIsPopped(s, t); PopKeepsPlaces(s, Next(s, step), s.threads[t].k, s.threads[t].was.index, t); }
      else if PushesNode(s, step) { PushKeepsPlaces(s, t); }
      else { ActIsPrivate(s, t, spurious); PrivateKeepsPlaces(s, Next(s, step), t); }
  }

  // What threads know.

  /** A node's tag only grows, and its next word changes only after a push has advanced the tag. */
  ghost predicate Aged(s: State, s': State, n: nat) {
    && n < |s.nodes| == |s'.nodes|
    && s.nodes[n].tag <= s'.nodes[n].tag
    && (s'.nodes[n].next == s.nodes[n].next || Advanced(s, n))
    && (Advanced(s', n) ==> Advanced(s, n) || s.nodes[n].tag < s'.nodes[n].tag)
  }

  lemma StepAges(s: State, step: Step, n: nat)
    requires Enabled(s, step) && n < |s.nodes| && (step.Act? ==> ThreadInv(s, step.t)) && NodeInv(s, n)
    requires step.Release? ==> HeldInv(s)
    ensures Aged(s, Next(s, step), n)
  {
  }

  /** The node that a thread is pushing is changed by no other thread. */
  lemma OthersKeepMoving(s: State, step: Step, u: nat, n: nat)
    requires Enabled(s, step) && n < |s.nodes| && s.nodes[n].place == Moving(u) && step.t != u && Places(s)
    requires (step.Act? ==> ThreadInv(s, step.t)) && (Pops(s, step) ==> s.nodes[s.threads[step.t].was.index].place.Listed?)
    ensures n < |Next(s, step).nodes| && Next(s, step).nodes[n] == s.nodes[n]
  {
    if step.Get? { assert CacheInv(s, step.t); }
  }

  lemma OthersStay(s: State, step: Step, u: nat)
    requires Enabled(s, step) && u < |s.threads| && u != step.t
    ensures u < |Next(s, step).threads| && Next(s, step).threads[u] == s.threads[u]
  {
  }

  /** What a push knows about its node stays true while nobody else changes the node. */
  lemma PushKnowledgeKept(s: State, s': State, u: nat)
    requires u < |s.threads| && IsPush(s.threads[u]) && ThreadInv(s, u)
    requires u < |s'.threads| && s'.threads[u] == s.threads[u]
    requires var n := s.threads[u].n; n < |s'.nodes| && s'.nodes[n] == s.nodes[n]
    ensures ThreadInv(s', u)
  {
  }

  lemma OtherPushKept(s: State, step: Step, u: nat)
    requires Inv(s) && Near(s) && Enabled(s, step) && u < |s.threads| && u != step.t && IsPush(s.threads[u])
    ensures u < |Next(s, step).threads| && ThreadInv(Next(s, step), u)
  {
    assert ThreadInv(s, u) && ThreadInv(s, step.t);
    if Pops(s, step) { PopTakesTop(s, step.t); }
    OthersKeepMoving(s, step, u, s.threads[u].n);
    OthersStay(s, step, u);
    PushKnowledgeKept(s, Next(s, step), u);
  }

  /** What a pop knows about a node stays true while the node ages. */
  lemma KnowledgeKept(s: State, s': State, u: nat)
    requires u < |s.threads| && !IsPush(s.threads[u]) && ThreadInv(s, u)
    requires u < |s'.threads| && s'.threads[u] == s.threads[u]
    requires var pc := s.threads[u]; (pc.PopRead? || pc.PopSwap?) && pc.was.Tagged? ==> Aged(s, s', pc.was.index)
    ensures ThreadInv(s', u)
  {
  }

  lemma OtherPopKept(s: State, step: Step, u: nat)
    requires Inv(s) && Near(s) && Enabled(s, step) && u < |s.threads| && u != step.t && !IsPush(s.threads[u])
    ensures u < |Next(s, step).threads| && ThreadInv(Next(s, step), u)
  {
    var pc := s.threads[u];
    assert ThreadInv(s, u) && ThreadInv(s, step.t);
    if (pc.PopRead? || pc.PopSwap?) && pc.was.Tagged? {
      assert NodeInv(s, pc.was.index);
      StepAges(s, step, pc.was.index);
    }
    KnowledgeKept(s, Next(s, step), u);
  }

  lemma ActKeepsOwnThread(s: State, t: nat, spurious: bool)
    requires Inv(s) && Enabled(s, Act(t, spurious))
    ensures ThreadInv(Next(s, Act(t, spurious)), t)
  {
    var pc := s.threads[t];
    assert ThreadInv(s, t);
    if IsPush(pc) {
      OwnPushKept(s, t, spurious);
    } else {
      assert StackInv(s, pc.k);
      if Of(s, pc.k).head.Tagged? { HeadIsSeen(s, pc.k); }
      OwnPopKept(s, t, spurious);
    }
  }

  lemma OwnPushKept(s: State, t: nat, spurious: bool)
    requires Enabled(s, Act(t, spurious)) && ThreadInv(s, t) && IsPush(s.threads[t])
    ensures ThreadInv(Next(s, Act(t, spurious)), t)
  {
  }

  lemma OwnPopKept(s: State, t: nat, spurious: bool)
    requires Enabled(s, Act(t, spurious)) && ThreadInv(s, t) && !IsPush(s.threads[t])
    requires var head := Of(s, s.threads[t].k).head; head.Tagged? ==> head.index < |s.nodes| && Seen(s, head, s.nodes[head.index].tag)
    ensures ThreadInv(Next(s, Act(t, spurious)), t)
  {
  }

  lemma HeadIsSeen(s: State, k: Kind)
    requires StackInv(s, k) && Of(s, k).head.Tagged?
    ensures var head := Of(s, k).head; head.index < |s.nodes| && Seen(s, head, s.nodes[head.index].tag)
  {
    var list := Of(s, k).list;
    assert Linked(s, list, k, |list| - 1);
  }

  lemma StartKeepsOwnThread(s: State, step: Step)
    requires Inv(s) && Enabled(s, step) && !step.Act?
    ensures ThreadInv(Next(s, step), step.t)
  {
  }

  lemma StepKeepsThread(s: State, step: Step, u: nat)
    requires Inv(s) && Near(s) && Enabled(s, step) && u < |s.threads|
    ensures u < |Next(s, step).threads| && ThreadInv(Next(s, step), u)
  {
    if u != step.t {
      if IsPush(s.threads[u]) { OtherPushKept(s, step, u); } else { OtherPopKept(s, step, u); }
    } else if step.Act? {
      ActKeepsOwnThread(s, u, step.spurious);
    } else {
      StartKeepsOwnThread(s, step);
    }
  }

  lemma StepKeepsInv(s: State, step: Step)
    requires Inv(s) && Near(s) && Enabled(s, step)
    ensures Inv(Next(s, step))
  {
    StepKeepsPlaces(s, step);
    forall u | 0 <= u < |s.threads| ensures u < |Next(s, step).threads| && ThreadInv(Next(s, step), u) { StepKeepsThread(s, step, u); }
  }

  lemma RunKeepsInv(run: seq<State>, i: nat)
    requires IsPoolRun(run) && i < |run|
    ensures Inv(run[i])
  {
    forall s | Init(s) ensures Inv(s) { InitInv(s); }
    forall s, s' | Inv(s) && Moves(s, s') ensures Inv(s') {
      var step :| Enabled(s, step) && s' == Next(s, step);
      StepKeepsInv(s, step);
    }
    InvariantOfRun(Init, Moves, Inv, run);
  }

  // ---------- What holds in every state of every run ----------

  /** Node `n` is at `place`: on that stack, in that cache, with a holder, or being pushed by that thread. */
  ghost predicate IsAt(s: State, n: nat, place: Place) {
    match place
    case Listed(k) => n in Of(s, k).list
    case Cached(t) => t < |s.caches| && n in s.caches[t]
    case Held => n in s.held
    case Moving(t) => t < |s.threads| && IsPush(s.threads[t]) && s.threads[t].n == n
  }

  lemma ElementHasIndex(list: seq<nat>, n: nat) returns (i: nat)
    requires n in list
    ensures i < |list| && list[i] == n
  {
    i :| 0 <= i < |list| && list[i] == n;
  }

  lemma PlaceIsWhereItIs(s: State, n: nat, place: Place)
    requires Inv(s) && IsAt(s, n, place)
    ensures n < |s.nodes| && s.nodes[n].place == place
  {
    match place
    case Listed(k) =>
      var i := ElementHasIndex(Of(s, k).list, n);
      assert StackInv(s, k);
      assert Linked(s, Of(s, k).list, k, i);
    case Cached(t) =>
      var i := ElementHasIndex(s.caches[t], n);
      assert CacheInv(s, t);
    case Held =>
    case Moving(t) => assert ThreadInv(s, t);
  }

  /** Every node is at all times in exactly one of the two stacks, one thread's cache, one holder or one thread's push. */
  lemma EachNodeIsInOnePlace(run: seq<State>, i: nat, n: nat)
    requires IsPoolRun(run) && i < |run| && n < |run[i].nodes|
    ensures exists place :: IsAt(run[i], n, place)
    ensures forall p, q | IsAt(run[i], n, p) && IsAt(run[i], n, q) :: p == q
  {
    RunKeepsInv(run, i);
    assert NodeInv(run[i], n);
    assert IsAt(run[i], n, run[i].nodes[n].place);
    forall p, q | IsAt(run[i], n, p) && IsAt(run[i], n, q) ensures p == q {
      PlaceIsWhereItIs(run[i], n, p);
      PlaceIsWhereItIs(run[i], n, q);
    }
  }

  /** ... and appears there once. */
  lemma NothingAppearsTwice(run: seq<State>, i: nat)
    requires IsPoolRun(run) && i < |run|
    ensures Links.Distinct(run[i].market.list) && Links.Distinct(run[i].collective.list)
    ensures forall t | 0 <= t < |run[i].caches| :: Links.Distinct(run[i].caches[t]) && |run[i].caches[t]| <= CACHE_CAPACITY
  {
    RunKeepsInv(run, i);
    forall t | 0 <= t < |run[i].caches|
      ensures Links.Distinct(run[i].caches[t]) && |run[i].caches[t]| <= CACHE_CAPACITY
    {
      assert CacheInv(run[i], t);
    }
  }

  /** The collective's nodes are never in a cache and never on the market. */
  lemma CollectiveIsNeverKept(run: seq<State>, i: nat, n: nat)
    requires IsPoolRun(run) && i < |run| && n < |run[i].nodes|
    ensures run[i].nodes[n].collective ==> n !in run[i].market.list
    ensures run[i].nodes[n].collective ==> forall t | 0 <= t < |run[i].caches| :: n !in run[i].caches[t]
    ensures !run[i].nodes[n].collective ==> n !in run[i].collective.list
  {
    var s := run[i];
    RunKeepsInv(run, i);
    assert NodeInv(s, n);
    if n in s.market.list { PlaceIsWhereItIs(s, n, Listed(Market)); }
    if n in s.collective.list { PlaceIsWhereItIs(s, n, Listed(Collective)); }
    forall t | 0 <= t < |s.caches| && n in s.caches[t] ensures !s.nodes[n].collective { PlaceIsWhereItIs(s, n, Cached(t)); }
  }

  /** A pop whose CAS succeeds has the topmost node and installs the word of the node below it: the stack loses its top and
      nothing else. */
  lemma PopInstallsSuccessor(run: seq<State>, i: nat, t: nat)
    requires IsPoolRun(run) && i + 1 < |run| && Pops(run[i], Act(t, false)) && Enabled(run[i], Act(t, false))
    requires run[i + 1] == Next(run[i], Act(t, false))
    ensures var k := run[i].threads[t].k; var before, after := Of(run[i], k), Of(run[i + 1], k);
      before.list == after.list + [run[i].threads[t].was.index] && after.head == Top(run[i + 1], after.list)
  {
    RunKeepsInv(run, i);
    assert Moves(run[i + 1 - 1], run[i + 1]);
    PopIsPopped(run[i], t);
    PoppedStack(run[i], run[i + 1], run[i].threads[t].k, run[i].threads[t].was.index, t);
  }

  lemma PoppedStack(s: State, s': State, k: Kind, n: nat, t: nat)
    requires Places(s) && Popped(s, s', k, n, t)
    ensures Of(s, k).list == Of(s', k).list + [n] && Of(s', k).head == Top(s', Of(s', k).list)
  {
    PopKeepsPlaces(s, s', k, n, t);
    assert StackInv(s', k);
    var list := Of(s, k).list;
    assert list == list[..|list| - 1] + [list[|list| - 1]];
  }

  /** A pop's CAS, however late, finds the word it expects exactly when the node is on top again and has been pushed a multiple
      of 2^32 times since the pop loaded the head. */
  lemma MatchIsAMultiple(s: State, t: nat)
    requires Inv(s) && t < |s.threads| && s.threads[t].PopSwap? && s.threads[t].was.Tagged?
    requires s.threads[t].was.index < |s.nodes|
    ensures var pc := s.threads[t]; var list := Of(s, pc.k).list;
      Of(s, pc.k).head == pc.was <==>
        list != [] && list[|list| - 1] == pc.was.index && Low(s.nodes[pc.was.index].tag - pc.seen) == 0
  {
    var pc := s.threads[t];
    assert ThreadInv(s, t) && StackInv(s, pc.k);
    var list := Of(s, pc.k).list;
    if list != [] && list[|list| - 1] == pc.was.index { SameLow(s.nodes[pc.was.index].tag, pc.seen); }
  }

  lemma SameLow(a: int, b: int)
    ensures Low(a - 1) == Low(b - 1) <==> Low(a - b) == 0
  {
  }

  // ---------- What try_pop and release come to ----------

  ghost predicate ActsAlone(s: State, s': State, t: nat) {
    Near(s) && Enabled(s, Act(t, false)) && s' == Next(s, Act(t, false))
  }

  /** In `run` nobody but thread `t` takes a step, and none of its exchanges fails for no reason. */
  ghost predicate Alone(run: seq<State>, t: nat) {
    |run| > 0 && forall n | 0 < n < |run| :: ActsAlone(run[n - 1], run[n], t)
  }

  lemma ActKeepsInv(s: State, t: nat) returns (s': State)
    requires Inv(s) && Near(s) && Enabled(s, Act(t, false))
    ensures s' == Next(s, Act(t, false)) && ActsAlone(s, s', t) && Inv(s')
  {
    s' := Next(s, Act(t, false));
    StepKeepsInv(s, Act(t, false));
  }

  /** Only thread `t` has moved. */
  ghost predicate OnlyMoved(s: State, s': State, t: nat, pc: Pc) { t < |s.threads| && s' == Goto(s, t, pc) }

  /** The node on top of the stack. */
  lemma TopOfStack(s: State, k: Kind)
    requires Inv(s)
    ensures Of(s, k).head == Null <==> Of(s, k).list == []
    ensures var stack := Of(s, k); stack.list != [] ==>
      stack.head.Tagged? && stack.head.index == stack.list[|stack.list| - 1] < |s.nodes|
  {
    assert StackInv(s, k);
  }

  /** A pop of one stack that nobody interferes with takes the node on top; from an empty one it goes on with the other stack, or
      gives up. */
  lemma PopAlone(s: State, t: nat, k: Kind) returns (run: seq<State>)
    requires Inv(s) && Near(s) && t < |s.threads| && s.threads[t] == PopLoad(k)
    ensures Alone(run, t) && run[0] == s && Inv(run[|run| - 1]) && Near(run[|run| - 1])
    ensures var last, list := run[|run| - 1], Of(s, k).list;
      && (list == [] ==> OnlyMoved(s, last, t, if k.Market? then PopLoad(Collective) else Idle))
      && (list != [] ==>
            && last.threads == s.threads[t := Idle] && last.held == s.held + {list[|list| - 1]} && last.caches == s.caches
            && Of(last, k).list == list[..|list| - 1])
  {
    var s1, s2 := LooksAlone(s, t, k);
    run := [s, s1, s2];
    if Of(s, k).list != [] {
      var s3 := SwapsAlone(s2, t, k);
      run := [s, s1, s2, s3];
      assert s3.threads == s.threads[t := Idle];
    }
  }

  lemma LooksAlone(s: State, t: nat, k: Kind) returns (s1: State, s2: State)
    requires Inv(s) && Near(s) && t < |s.threads| && s.threads[t] == PopLoad(k)
    ensures ActsAlone(s, s1, t) && ActsAlone(s1, s2, t) && Inv(s2) && Near(s2)
    ensures var head, list := Of(s, k).head, Of(s, k).list;
      && OnlyMoved(s, s2, t, s2.threads[t])
      && (list == [] ==> s2.threads[t] == if k.Market? then PopLoad(Collective) else Idle)
      && (list != [] ==> s2.threads[t].PopSwap? && s2.threads[t].k == k && s2.threads[t].was == head)
  {
    TopOfStack(s, k);
    s1 := ActKeepsInv(s, t);
    NextDoesNotMatter(s, s1, t);
    s2 := ActKeepsInv(s1, t);
  }

  lemma SwapsAlone(s: State, t: nat, k: Kind) returns (s': State)
    requires Inv(s) && Near(s) && t < |s.threads| && s.threads[t].PopSwap? && s.threads[t].k == k
    requires s.threads[t].was == Of(s, k).head && Of(s, k).list != []
    ensures ActsAlone(s, s', t) && Inv(s') && Near(s')
    ensures var list := Of(s, k).list;
      && s'.threads == s.threads[t := Idle] && s'.held == s.held + {list[|list| - 1]} && s'.caches == s.caches
      && Of(s', k).list == list[..|list| - 1]
  {
    TopOfStack(s, k);
    assert ThreadInv(s, t);
    s' := ActKeepsInv(s, t);
    NextDoesNotMatter(s, s', t);
  }

  /** A `try_pop` that nobody interferes with takes the youngest node of its own cache; if that is empty, the node on top of the
      market; if there is none, the one on top of the collective; and comes back without a node only if there is none either. */
  lemma TryPopAlone(s: State, t: nat) returns (run: seq<State>)
    requires Inv(s) && Near(s) && Enabled(s, Get(t))
    ensures Alone(run, t) && run[0] == Next(s, Get(t))
    ensures var last, cache, market, collective := run[|run| - 1], s.caches[t], s.market.list, s.collective.list;
      && Inv(last) && last.threads == s.threads
      && (cache != [] ==> last.held == s.held + {cache[|cache| - 1]} && last.caches == s.caches[t := cache[..|cache| - 1]])
      && (cache == [] && market != [] ==> last.held == s.held + {market[|market| - 1]} && last.market.list == market[..|market| - 1])
      && (cache == [] && market == [] && collective != [] ==>
            last.held == s.held + {collective[|collective| - 1]} && last.collective.list == collective[..|collective| - 1])
      && (cache == [] && market == [] && collective == [] ==> last == s)
  {
    var s0 := Next(s, Get(t));
    StepKeepsInv(s, Get(t));
    run := [s0];
    if s.caches[t] == [] {
      assert Near(s0);
      run := PopAlone(s0, t, Market);
      if s.market.list == [] {
        var s1 := run[|run| - 1];
        var rest := PopAlone(s1, t, Collective);
        run := run[..|run| - 1] + rest;
        assert rest[|rest| - 1].threads == s.threads;
      } else {
        assert run[|run| - 1].threads == s.threads;
      }
    }
  }

  /** Pops in progress are still in time after one more push. */
  ghost predicate InTimeForOneMore(s: State) {
    forall t | 0 <= t < |s.threads| :: var pc := s.threads[t];
      pc.PopSwap? && pc.was.Tagged? && pc.was.index < |s.nodes| ==> s.nodes[pc.was.index].tag + 1 - pc.seen < 0x1_0000_0000
  }

  lemma PushAlone(s: State, t: nat, k: Kind, n: nat) returns (run: seq<State>)
    requires Inv(s) && InTimeForOneMore(s) && t < |s.threads| && s.threads[t] == PushLoad(k, n)
    ensures Alone(run, t) && run[0] == s
    ensures var last := run[|run| - 1];
      && Inv(last) && last.threads == s.threads[t := Idle] && last.caches == s.caches && last.held == s.held
      && Of(last, k).list == Of(s, k).list + [n]
  {
    var s1, s2 := TagsAlone(s, t, k, n);
    var rest := LinkAlone(s2, t, k, n);
    run := [s, s1] + rest;
    assert rest[|rest| - 1].threads == s.threads[t := Idle];
  }

  lemma TagsAlone(s: State, t: nat, k: Kind, n: nat) returns (s1: State, s2: State)
    requires Inv(s) && InTimeForOneMore(s) && t < |s.threads| && s.threads[t] == PushLoad(k, n)
    ensures ActsAlone(s, s1, t) && ActsAlone(s1, s2, t) && Inv(s2) && Near(s2)
    ensures n < |s.nodes| && s2 == Goto(s, t, s2.threads[t]).(nodes := s.nodes[n := s.nodes[n].(tag := s.nodes[n].tag + 1)])
    ensures s2.threads[t].PushLink? && s2.threads[t].k == k && s2.threads[t].n == n && s2.threads[t].was == Of(s, k).head
  {
    assert ThreadInv(s, t);
    s1 := ActKeepsInv(s, t);
    assert s1 == Goto(s, t, PushTag(k, n, Of(s, k).head));
    s2 := ActKeepsInv(s1, t);
    OneMorePush(s, s2, t, n);
  }

  lemma OneMorePush(s: State, s': State, t: nat, n: nat)
    requires InTimeForOneMore(s) && t < |s.threads| && n < |s.nodes| && t < |s'.threads|
    requires s'.nodes == s.nodes[n := s.nodes[n].(tag := s.nodes[n].tag + 1)]
    requires s'.threads == s.threads[t := s'.threads[t]] && !s'.threads[t].PopSwap?
    ensures Near(s')
  {
    forall u | 0 <= u < |s'.threads| ensures InTime(s', s'.threads[u]) { if u != t { assert s'.threads[u] == s.threads[u]; } }
  }

  lemma LinkAlone(s: State, t: nat, k: Kind, n: nat) returns (run: seq<State>)
    requires Inv(s) && Near(s) && t < |s.threads| && s.threads[t].PushLink? && s.threads[t].k == k && s.threads[t].n == n
    requires s.threads[t].was == Of(s, k).head
    ensures Alone(run, t) && run[0] == s
    ensures var last := run[|run| - 1];
      && Inv(last) && last.threads == s.threads[t := Idle] && last.caches == s.caches && last.held == s.held
      && Of(last, k).list == Of(s, k).list + [n]
  {
    assert ThreadInv(s, t);
    var s1 := ActKeepsInv(s, t);
    assert s1.threads == s.threads[t := PushSwap(k, n, Of(s, k).head, s.threads[t].word)];
    NextDoesNotMatter(s, s1, t);
    var s2 := ActKeepsInv(s1, t);
    assert s2.threads == s.threads[t := Idle];
    run := [s, s1, s2];
  }

  lemma NextDoesNotMatter(s: State, s': State, t: nat)
    requires Near(s) && t < |s.threads| && t < |s'.threads|
    requires s'.threads == s.threads[t := s'.threads[t]] && !s'.threads[t].PopSwap?
    requires |s'.nodes| == |s.nodes| && forall n | 0 <= n < |s.nodes| :: s'.nodes[n].tag == s.nodes[n].tag
    ensures Near(s')
  {
    forall u | 0 <= u < |s'.threads| ensures InTime(s', s'.threads[u]) { if u != t { assert InTime(s, s.threads[u]); } }
  }

  /** A release that nobody interferes with puts the node of the collective back on top of the collective, and any other into
      the cache of the thread or, once that has 7 nodes, on top of the market. */
  lemma ReleaseAlone(s: State, t: nat, n: nat) returns (run: seq<State>)
    requires Inv(s) && InTimeForOneMore(s) && Enabled(s, Release(t, n))
    ensures Alone(run, t) && run[0] == Next(s, Release(t, n))
    ensures var last := run[|run| - 1];
      && Inv(last) && last.threads == s.threads && last.held == s.held - {n}
      && (s.nodes[n].collective ==> last.collective.list == s.collective.list + [n])
      && (!s.nodes[n].collective && |s.caches[t]| < 7 ==> last.caches == s.caches[t := s.caches[t] + [n]])
      && (!s.nodes[n].collective && |s.caches[t]| >= 7 ==> last.market.list == s.market.list + [n])
  {
    var s0 := Next(s, Release(t, n));
    assert Near(s);
    StepKeepsInv(s, Release(t, n));
    run := [s0];
    if s0.threads[t].PushLoad? {
      run := PushAlone(s0, t, s0.threads[t].k, n);
      assert run[|run| - 1].threads == s.threads;
    }
  }

  /** The thread is about to learn that stack `k` is empty. */
  predicate ReadsNull(s: State, pc: Pc, k: Kind) { Of(s, k).head == Null && (pc == PopLoad(k) || (pc.PopSwap? && pc.k == k)) }

  predicate HasSeenNull(pc: Pc, k: Kind) { pc.PopRead? && pc.k == k && pc.was == Null }

  /** The thread has found the market empty and turned to the collective. */
  predicate PastMarket(pc: Pc) { HasSeenNull(pc, Market) || ((pc.PopLoad? || pc.PopRead? || pc.PopSwap?) && pc.k.Collective?) }

  predicate IsPop(pc: Pc) { pc.PopLoad? || pc.PopRead? || pc.PopSwap? }

  /** The step with which a thread leaves `try_pop` without a node. */
  ghost predicate LeavesEmptyHanded(s: State, s': State, t: nat, spurious: bool) {
    && t < |s.threads| && Enabled(s, Act(t, spurious)) && s' == Next(s, Act(t, spurious))
    && IsPop(s.threads[t]) && s'.threads[t].Idle? && s'.held == s.held
  }

  /** A pop does not give up: while a stack has nodes it goes on until it has one. */
  lemma GivesUpOnlyWhenEmpty(s: State, s': State, t: nat, spurious: bool)
    requires Inv(s) && Near(s) && LeavesEmptyHanded(s, s', t, spurious)
    ensures HasSeenNull(s.threads[t], Collective)
  {
    if Pops(s, Act(t, spurious)) { PopTakesTop(s, t); }
  }

  lemma HasSeenNullSince(s: State, step: Step, t: nat)
    requires Enabled(s, step) && t < |s.threads|
    ensures forall k :: HasSeenNull(Next(s, step).threads[t], k) ==> HasSeenNull(s.threads[t], k) || ReadsNull(s, s.threads[t], k)
    ensures PastMarket(Next(s, step).threads[t]) ==> PastMarket(s.threads[t]) || ReadsNull(s, s.threads[t], Market)
  {
  }

  /** A `try_pop` that comes back without a node has seen both stacks empty: first the market, and after that the collective, at
      the time when it last read the head or was told by a failed exchange what it is. */
  lemma NoNodeMeansEmpty(run: seq<State>, n: nat, t: nat, spurious: bool) returns (m: nat, c: nat)
    requires IsPoolRun(run) && n + 1 < |run| && LeavesEmptyHanded(run[n], run[n + 1], t, spurious)
    ensures m < c < n && t < |run[m].threads| && t < |run[c].threads|
    ensures ReadsNull(run[m], run[m].threads[t], Market) && run[m].market.list == []
    ensures ReadsNull(run[c], run[c].threads[t], Collective) && run[c].collective.list == []
    ensures forall i | m < i <= n :: t < |run[i].threads| && PastMarket(run[i].threads[t])
  {
    RunKeepsInv(run, n);
    assert Moves(run[n + 1 - 1], run[n + 1]);
    GivesUpOnlyWhenEmpty(run[n], run[n + 1], t, spurious);
    c := SawNull(run, n, t, Collective);
    m := PassedMarket(run, n, t);
    EmptyAt(run, m, t, Market);
    EmptyAt(run, c, t, Collective);
  }

  lemma EmptyAt(run: seq<State>, i: nat, t: nat, k: Kind)
    requires IsPoolRun(run) && i < |run| && t < |run[i].threads| && ReadsNull(run[i], run[i].threads[t], k)
    ensures Of(run[i], k).list == []
  {
    RunKeepsInv(run, i);
    TopOfStack(run[i], k);
  }

  lemma PassedMarket(run: seq<State>, n: nat, t: nat) returns (m: nat)
    requires IsPoolRun(run) && n < |run| && t < |run[n].threads| && PastMarket(run[n].threads[t])
    ensures m < n && t < |run[m].threads| && ReadsNull(run[m], run[m].threads[t], Market)
    ensures forall i | m < i <= n :: t < |run[i].threads| && PastMarket(run[i].threads[t])
  {
    var holds := (i: nat) => i < |run| && t < |run[i].threads| && PastMarket(run[i].threads[t]);
    var event := (i: nat) => 0 < i < |run| && t < |run[i - 1].threads| && ReadsNull(run[i - 1], run[i - 1].threads[t], Market);
    forall i: nat | i <= n ensures HoldsFrom(holds, event, i) {
      if holds(i) { StepBefore(run, i, t); }
    }
    var k := Since(holds, event, n);
    m := k - 1;
    forall i | m < i <= n ensures t < |run[i].threads| && PastMarket(run[i].threads[t]) { assert holds(i); }
  }

  lemma SawNull(run: seq<State>, n: nat, t: nat, k: Kind) returns (c: nat)
    requires IsPoolRun(run) && n < |run| && t < |run[n].threads| && HasSeenNull(run[n].threads[t], k)
    ensures c < n && t < |run[c].threads| && ReadsNull(run[c], run[c].threads[t], k)
    ensures forall i | c < i <= n :: t < |run[i].threads| && HasSeenNull(run[i].threads[t], k)
  {
    var holds := (i: nat) => i < |run| && t < |run[i].threads| && HasSeenNull(run[i].threads[t], k);
    var event := (i: nat) => 0 < i < |run| && t < |run[i - 1].threads| && ReadsNull(run[i - 1], run[i - 1].threads[t], k);
    forall i: nat | i <= n ensures HoldsFrom(holds, event, i) {
      if holds(i) { StepBefore(run, i, t); }
    }
    var j := Since(holds, event, n);
    c := j - 1;
    forall i | c < i <= n ensures t < |run[i].threads| && HasSeenNull(run[i].threads[t], k) { assert holds(i); }
  }

  lemma StepBefore(run: seq<State>, i: nat, t: nat)
    requires IsPoolRun(run) && i < |run| && t < |run[i].threads| && !run[i].threads[t].Idle?
    ensures i > 0 && t < |run[i - 1].threads|
    ensures forall k :: HasSeenNull(run[i].threads[t], k) ==> HasSeenNull(run[i - 1].threads[t], k) || ReadsNull(run[i - 1], run[i - 1].threads[t], k)
    ensures PastMarket(run[i].threads[t]) ==> PastMarket(run[i - 1].threads[t]) || ReadsNull(run[i - 1], run[i - 1].threads[t], Market)
  {
    assert i > 0;
    assert Moves(run[i - 1], run[i]);
    var step :| Enabled(run[i - 1], step) && run[i] == Next(run[i - 1], step);
    HasSeenNullSince(run[i - 1], step, t);
  }

  // ---------- The words ----------

  /** make_tagged_index */
  function MakeTagged(index: bv64, tag: bv64): bv64 { index | (tag << 32) }

  /** get_index */
  function GetIndex(word: bv64): bv64 { word & 0xFFFF_FFFF }

  /** get_tag */
  function GetTag(word: bv64): bv64 { word >> 32 }

  /** A word gives back its index and the low half of its tag and depends on nothing else, so two words are equal exactly
      when the indices are and the tags agree modulo 2^32. None but the index of all ones can yield NULL_INDEX. */
  lemma TaggedRoundTrip(index: bv64, tag: bv64)
    requires index <= 0xFFFF_FFFF
    ensures GetIndex(MakeTagged(index, tag)) == index
    ensures GetTag(MakeTagged(index, tag)) == tag & 0xFFFF_FFFF
    ensures MakeTagged(index, tag) == MakeTagged(index, tag & 0xFFFF_FFFF)
    ensures MakeTagged(index, tag) == 0xFFFF_FFFF_FFFF_FFFF <==> index == 0xFFFF_FFFF && tag & 0xFFFF_FFFF == 0xFFFF_FFFF
  {
  }
}
