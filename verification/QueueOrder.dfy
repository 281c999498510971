/** What the queue of CountedQueue delivers: as long as no push exchanges a tail that has moved on, values come out in the order in
    which their pushes have exchanged the tail. */
module QueueOrder {
  import opened CountedQueue
  import opened Links
  import opened Runs

  // ---------- The invariant ----------

  // `order` are the nodes that the tail has led to, in that order; the head has moved past the first `k` of them.

  /** Node `i` of the order has the value of the push that brought node `i + 1`, and leads there. */
  ghost predicate Carries(s: State, order: seq<nat>, i: nat)
    requires i + 1 < |order|
  {
    && order[i] < |s.nodes| && order[i + 1] < |s.nodes|
    && s.nodes[order[i]].next == CountedPtr(1, At(order[i + 1]))
    && s.nodes[order[i]].data == At(s.nodes[order[i + 1]].brings)
  }

  ghost predicate NodesOrdered(s: State, order: seq<nat>, k: nat) {
    && k < |order| && Distinct(order)
    && (forall n | 0 <= n < |s.nodes| :: n in order <==> !s.nodes[n].tailSide.Future?)
    && (forall n | n in order :: n < |s.nodes|)
    && s.head.ptr == At(order[k]) && s.tail.ptr == At(order[|order| - 1])
    && (forall i | k <= i < |order| - 1 :: Carries(s, order, i))
  }

  /** Node `n` is one that the head has moved past. */
  ghost predicate IsPast(order: seq<nat>, k: nat, n: nat) { k <= |order| && exists i :: 0 <= i < k && order[i] == n }

  /** The push has set the data of node `pc.dummy`. */
  predicate HasWon(pc: Pc) { pc.PushNext? || pc.PushSwap? }

  ghost predicate PushOrdered(s: State, order: seq<nat>, k: nat, pc: Pc)
    requires order != []
  {
    && (pc.PushLoad? || pc.PushInc? || pc.PushData? || pc.PushRelease? ==> pc.mine < |s.nodes| && s.nodes[pc.mine].brings == pc.value)
    && (HasWon(pc) ==>
          && pc.mine < |s.nodes| && pc.dummy < |s.nodes|
          && (pc.dummy == order[|order| - 1] || IsPast(order, k, pc.dummy))
          && (pc.dummy == order[|order| - 1] ==>
                && s.nodes[pc.dummy].data == At(s.nodes[pc.mine].brings)
                && (pc.PushSwap? ==> s.nodes[pc.dummy].next == CountedPtr(1, At(pc.mine)))))
  }

  /** A pop stands at node `j` of the order. */
  ghost predicate PopStands(s: State, order: seq<nat>, k: nat, pc: Pc, j: nat)
    requires pc.PopCheck? || pc.PopRead? || pc.PopSwap?
  {
    && j <= k < |order| && pc.was.ptr == At(order[j])
    && (pc.PopRead? || pc.PopSwap? ==> j < |order| - 1)
    && (pc.PopSwap? && j == k && k + 1 < |order| ==> pc.next == CountedPtr(1, At(order[k + 1])))
  }

  /** A pop has moved the head past node `j` and is about to take its data. */
  ghost predicate PopTakes(s: State, order: seq<nat>, k: nat, pc: Pc, j: nat)
    requires pc.PopTake?
  {
    && j < k < |order| && pc.was.ptr == At(order[j]) && order[j] < |s.nodes| && order[j + 1] < |s.nodes|
    && s.nodes[order[j]].data == At(s.nodes[order[j + 1]].brings)
  }

  ghost predicate PopOrdered(s: State, order: seq<nat>, k: nat, pc: Pc) {
    && (pc.PopCheck? || pc.PopRead? || pc.PopSwap? ==> exists j: nat :: PopStands(s, order, k, pc, j))
    && (pc.PopTake? ==> exists j: nat :: PopTakes(s, order, k, pc, j))
  }

  ghost predicate ThreadOrdered(s: State, order: seq<nat>, k: nat, t: nat)
    requires t < |s.threads| && order != []
  {
    PushOrdered(s, order, k, s.threads[t]) && PopOrdered(s, order, k, s.threads[t])
  }

  /** No two pushes have won the tail. */
  ghost predicate OneWinner(s: State) {
    forall t, u | 0 <= t < |s.threads| && 0 <= u < |s.threads| && HasWon(s.threads[t]) && HasWon(s.threads[u])
        && s.tail.ptr == At(s.threads[t].dummy) == At(s.threads[u].dummy) :: t == u
  }

  ghost predicate Ordered(s: State, order: seq<nat>, k: nat) {
    && NodesOrdered(s, order, k) && OneWinner(s)
    && forall t | 0 <= t < |s.threads| :: ThreadOrdered(s, order, k, t)
  }

  // ---------- What a step adds ----------

  /** The step is a push's exchange of the tail. */
  predicate Appends(s: State, step: Step) { step.Act? && step.t < |s.threads| && s.threads[step.t].PushSwap? }

  /** The step is a successful exchange of the head by a pop. */
  predicate MovesHead(s: State, step: Step) {
    step.Act? && step.t < |s.threads| && s.threads[step.t].PopSwap? && s.head == s.threads[step.t].was
  }

  function OrderAfter(s: State, step: Step, order: seq<nat>): seq<nat> {
    if Appends(s, step) then order + [s.threads[step.t].mine] else order
  }

  function PastAfter(s: State, step: Step, k: nat): nat { if MovesHead(s, step) then k + 1 else k }

  // ---------- Each step keeps the invariant ----------

  lemma OtherPlaceOtherNode(order: seq<nat>, i: nat, j: nat)
    requires Distinct(order) && i < |order| && j < |order| && i != j
    ensures order[i] != order[j]
  {
    if i < j { assert Differ(order, i, j); } else { assert Differ(order, j, i); }
  }

  lemma PlaceOf(order: seq<nat>, n: nat) returns (i: nat)
    requires n in order
    ensures i < |order| && order[i] == n
  {
    i :| 0 <= i < |order| && order[i] == n;
  }

  /** A step that changes neither the pointers nor which nodes have been the tail, and of the nodes that the head has not moved past
      neither data nor next pointer. */
  ghost predicate LeavesOrder(s: State, s': State, order: seq<nat>, k: nat) {
    && k < |order| && s'.head.ptr == s.head.ptr && s'.tail.ptr == s.tail.ptr && |s'.nodes| >= |s.nodes|
    && (forall n | 0 <= n < |s'.nodes| :: n < |s.nodes| || s'.nodes[n].tailSide.Future?)
    && (forall n | 0 <= n < |s.nodes| ::
          && s'.nodes[n].brings == s.nodes[n].brings
          && (s'.nodes[n].tailSide.Future? <==> s.nodes[n].tailSide.Future?))
    && (forall i | k <= i < |order| - 1 && order[i] < |s.nodes| ::
          s'.nodes[order[i]].next == s.nodes[order[i]].next && s'.nodes[order[i]].data == s.nodes[order[i]].data)
  }

  lemma LeavesNodesOrdered(s: State, s': State, order: seq<nat>, k: nat)
    requires NodesOrdered(s, order, k) && LeavesOrder(s, s', order, k)
    ensures NodesOrdered(s', order, k)
  {
    forall i | k <= i < |order| - 1 ensures Carries(s', order, i) { assert Carries(s, order, i); }
  }

  // Steps that leave data and next pointers alone.

  ghost predicate SameContents(s: State, s': State) {
    && |s'.nodes| >= |s.nodes| && s'.head.ptr == s.head.ptr && s'.tail.ptr == s.tail.ptr
    && (forall n | 0 <= n < |s'.nodes| :: n < |s.nodes| || s'.nodes[n].tailSide.Future?)
    && (forall n | 0 <= n < |s.nodes| ::
          && s'.nodes[n].data == s.nodes[n].data && s'.nodes[n].next == s.nodes[n].next && s'.nodes[n].brings == s.nodes[n].brings
          && (s'.nodes[n].tailSide.Future? <==> s.nodes[n].tailSide.Future?))
  }

  lemma PopStaysOrdered(s: State, s': State, order: seq<nat>, k: nat, pc: Pc)
    requires PopOrdered(s, order, k, pc) && SameContents(s, s')
    ensures PopOrdered(s', order, k, pc)
  {
    if pc.PopCheck? || pc.PopRead? || pc.PopSwap? {
      var j: nat :| PopStands(s, order, k, pc, j);
      assert PopStands(s', order, k, pc, j);
    } else if pc.PopTake? {
      var j: nat :| PopTakes(s, order, k, pc, j);
      assert PopTakes(s', order, k, pc, j);
    }
  }

  lemma ThreadStaysOrdered(s: State, s': State, order: seq<nat>, k: nat, u: nat)
    requires u < |s.threads| && u < |s'.threads| && s'.threads[u] == s.threads[u] && order != []
    requires ThreadOrdered(s, order, k, u) && SameContents(s, s')
    ensures ThreadOrdered(s', order, k, u)
  {
    PopStaysOrdered(s, s', order, k, s.threads[u]);
  }

  /** A step that changes no contents keeps the order if the thread that takes it still knows where it stands. */
  lemma QuietKeepsOrdered(s: State, s': State, order: seq<nat>, k: nat, t: nat)
    requires Ordered(s, order, k) && SameContents(s, s') && t < |s.threads| == |s'.threads|
    requires s'.threads == s.threads[t := s'.threads[t]]
    requires ThreadOrdered(s', order, k, t) && (HasWon(s'.threads[t]) ==> HasWon(s.threads[t]) && s'.threads[t].dummy == s.threads[t].dummy)
    ensures Ordered(s', order, k)
  {
    LeavesNodesOrdered(s, s', order, k);
    forall u | 0 <= u < |s'.threads| ensures ThreadOrdered(s', order, k, u) {
      if u != t { ThreadStaysOrdered(s, s', order, k, u); }
    }
  }

  /** Neither sets data or a next pointer, nor exchanges a pointer for one to another node. */
  predicate IsQuiet(s: State, pc: Pc) {
    && !HasWon(pc) && !pc.PopTake? && !(pc.PopSwap? && s.head == pc.was)
    && !(pc.PushData? && Valid(s, pc.was.ptr) && s.nodes[pc.was.ptr.n].data == Null)
  }

  lemma QuietHasSameContents(s: State, t: nat)
    requires Enabled(s, Act(t)) && IsQuiet(s, s.threads[t]) && WasInv(s, t)
    ensures SameContents(s, Next(s, Act(t)))
  {
  }

  lemma QuietPush(s: State, t: nat, order: seq<nat>, k: nat)
    requires Enabled(s, Act(t)) && IsQuiet(s, s.threads[t]) && order != [] && PushOrdered(s, order, k, s.threads[t])
    ensures PushOrdered(Next(s, Act(t)), order, k, Next(s, Act(t)).threads[t]) && !HasWon(Next(s, Act(t)).threads[t])
  {
  }

  lemma QuietPop(s: State, t: nat, order: seq<nat>, k: nat)
    requires Enabled(s, Act(t)) && IsQuiet(s, s.threads[t]) && NodesOrdered(s, order, k) && PopOrdered(s, order, k, s.threads[t])
    ensures PopOrdered(Next(s, Act(t)), order, k, Next(s, Act(t)).threads[t])
  {
    var s', pc := Next(s, Act(t)), s.threads[t];
    if pc.PopInc? && s'.threads[t].PopCheck? {
      assert PopStands(s', order, k, s'.threads[t], k);
    } else if pc.PopCheck? {
      var j: nat :| PopStands(s, order, k, pc, j);
      if s'.threads[t].PopRead? { assert PopStands(s', order, k, s'.threads[t], j); }
    } else if pc.PopRead? {
      var j: nat :| PopStands(s, order, k, pc, j);
      if j == k { assert Carries(s, order, k); }
      assert PopStands(s', order, k, s'.threads[t], j);
    }
  }

  lemma QuietStepKeepsOrdered(s: State, t: nat, order: seq<nat>, k: nat)
    requires Inv(s) && Ordered(s, order, k) && Enabled(s, Act(t)) && IsQuiet(s, s.threads[t])
    ensures Ordered(Next(s, Act(t)), order, k)
  {
    assert ThreadInv(s, t) && ThreadOrdered(s, order, k, t);
    QuietHasSameContents(s, t);
    QuietPush(s, t, order, k);
    QuietPop(s, t, order, k);
    QuietKeepsOrdered(s, Next(s, Act(t)), order, k, t);
  }

  lemma StartKeepsOrdered(s: State, step: Step, order: seq<nat>, k: nat)
    requires Ordered(s, order, k) && Enabled(s, step) && !step.Act?
    ensures Ordered(Next(s, step), order, k)
  {
    QuietKeepsOrdered(s, Next(s, step), order, k, step.t);
  }

  // Setting the data of a node.

  /** A node whose data is null, and which has been the tail, is the tail or one that the head has moved past. */
  lemma NullIsTailOrPast(s: State, order: seq<nat>, k: nat, n: nat)
    requires NodesOrdered(s, order, k) && n < |s.nodes| && !s.nodes[n].tailSide.Future? && s.nodes[n].data == Null
    ensures n == order[|order| - 1] || IsPast(order, k, n)
  {
    var i := PlaceOf(order, n);
    assert k <= i < |order| - 1 ==> Carries(s, order, i);
  }

  lemma WinKeepsOthers(s: State, t: nat, order: seq<nat>, k: nat, u: nat)
    requires Enabled(s, Act(t)) && s.threads[t].PushData? && s.nodes[s.threads[t].was.ptr.n].data == Null
    requires u < |s.threads| && u != t && order != [] && ThreadOrdered(s, order, k, u)
    ensures ThreadOrdered(Next(s, Act(t)), order, k, u)
    ensures HasWon(s.threads[u]) && s.threads[u].dummy == order[|order| - 1] ==> s.threads[u].dummy != s.threads[t].was.ptr.n
  {
    var s', pc := Next(s, Act(t)), s.threads[u];
    if pc.PopCheck? || pc.PopRead? || pc.PopSwap? {
      var j: nat :| PopStands(s, order, k, pc, j);
      assert PopStands(s', order, k, pc, j);
    } else if pc.PopTake? {
      var j: nat :| PopTakes(s, order, k, pc, j);
      assert PopTakes(s', order, k, pc, j);
    }
  }

  lemma WinKeepsOrdered(s: State, t: nat, order: seq<nat>, k: nat)
    requires Inv(s) && Ordered(s, order, k) && Enabled(s, Act(t))
    requires s.threads[t].PushData? && s.nodes[s.threads[t].was.ptr.n].data == Null
    ensures Ordered(Next(s, Act(t)), order, k)
  {
    var s', n := Next(s, Act(t)), s.threads[t].was.ptr.n;
    assert ThreadInv(s, t) && ThreadOrdered(s, order, k, t);
    NullIsTailOrPast(s, order, k, n);
    forall i | k <= i < |order| - 1 ensures order[i] != n { assert Carries(s, order, i); }
    LeavesNodesOrdered(s, s', order, k);
    forall u | 0 <= u < |s'.threads|
      ensures ThreadOrdered(s', order, k, u)
      ensures u != t && HasWon(s.threads[u]) && s.threads[u].dummy == order[|order| - 1] ==> s.threads[u].dummy != n
    {
      if u != t { WinKeepsOthers(s, t, order, k, u); }
    }
  }

  // Storing the next pointer.

  lemma LinkKeepsOthers(s: State, t: nat, order: seq<nat>, k: nat, u: nat)
    requires Enabled(s, Act(t)) && s.threads[t].PushNext? && u < |s.threads| && u != t && order != [] && ThreadOrdered(s, order, k, u)
    requires HasWon(s.threads[u]) && s.threads[u].dummy == order[|order| - 1] ==> s.threads[u].dummy != s.threads[t].dummy
    ensures ThreadOrdered(Next(s, Act(t)), order, k, u)
  {
    var s', pc := Next(s, Act(t)), s.threads[u];
    if pc.PopCheck? || pc.PopRead? || pc.PopSwap? {
      var j: nat :| PopStands(s, order, k, pc, j);
      assert PopStands(s', order, k, pc, j);
    } else if pc.PopTake? {
      var j: nat :| PopTakes(s, order, k, pc, j);
      assert PopTakes(s', order, k, pc, j);
    }
  }

  lemma PastIsNotLeft(order: seq<nat>, k: nat, n: nat, i: nat)
    requires Distinct(order) && k <= i < |order| && IsPast(order, k, n)
    ensures order[i] != n
  {
    var j :| 0 <= j < k && order[j] == n;
    OtherPlaceOtherNode(order, i, j);
  }

  /** What a push that has won works on is not among the nodes that the head has yet to move past, but for the tail. */
  lemma WonIsElsewhere(s: State, order: seq<nat>, k: nat, pc: Pc, i: nat)
    requires NodesOrdered(s, order, k) && PushOrdered(s, order, k, pc) && HasWon(pc) && k <= i < |order| - 1
    ensures order[i] != pc.dummy
  {
    if pc.dummy == order[|order| - 1] { OtherPlaceOtherNode(order, i, |order| - 1); } else { PastIsNotLeft(order, k, pc.dummy, i); }
  }

  lemma LinkKeepsOrdered(s: State, t: nat, order: seq<nat>, k: nat)
    requires Ordered(s, order, k) && Enabled(s, Act(t)) && s.threads[t].PushNext?
    ensures Ordered(Next(s, Act(t)), order, k)
  {
    var s', pc := Next(s, Act(t)), s.threads[t];
    assert ThreadOrdered(s, order, k, t);
    forall i | k <= i < |order| - 1 ensures order[i] != pc.dummy { WonIsElsewhere(s, order, k, pc, i); }
    LeavesNodesOrdered(s, s', order, k);
    forall u | 0 <= u < |s'.threads| ensures ThreadOrdered(s', order, k, u) {
      if u != t { LinkKeepsOthers(s, t, order, k, u); }
    }
  }

  // Exchanging the tail.

  lemma AppendKeepsNodes(s: State, t: nat, order: seq<nat>, k: nat)
    requires Inv(s) && NodesOrdered(s, order, k) && Enabled(s, Act(t)) && PushOrdered(s, order, k, s.threads[t])
    requires s.threads[t].PushSwap? && !IsStale(s, Act(t))
    ensures NodesOrdered(Next(s, Act(t)), order + [s.threads[t].mine], k)
    ensures s.threads[t].mine !in order
  {
    var s', pc := Next(s, Act(t)), s.threads[t];
    assert ThreadInv(s, t) && SideInv(s, s.tail.ptr.n);
    var order' := order + [pc.mine];
    forall i, j | 0 <= i < j < |order'| ensures Differ(order', i, j) { if j < |order| { assert Differ(order, i, j); } }
    forall i | k <= i < |order'| - 1 ensures Carries(s', order', i) { if i < |order| - 1 { assert Carries(s, order, i); } }
    forall n | 0 <= n < |s'.nodes| ensures n in order' <==> !s'.nodes[n].tailSide.Future? {}
  }

  lemma AppendKeepsOthers(s: State, t: nat, order: seq<nat>, k: nat, u: nat)
    requires Enabled(s, Act(t)) && s.threads[t].PushSwap? && u < |s.threads| && u != t && order != [] && ThreadOrdered(s, order, k, u)
    requires HasWon(s.threads[u]) ==> s.threads[u].dummy != order[|order| - 1]
    requires s.threads[t].mine !in order && k < |order|
    ensures ThreadOrdered(Next(s, Act(t)), order + [s.threads[t].mine], k, u)
  {
    var s', pc, order' := Next(s, Act(t)), s.threads[u], order + [s.threads[t].mine];
    if pc.PopCheck? || pc.PopRead? || pc.PopSwap? {
      var j: nat :| PopStands(s, order, k, pc, j);
      assert PopStands(s', order', k, pc, j);
    } else if pc.PopTake? {
      var j: nat :| PopTakes(s, order, k, pc, j);
      assert PopTakes(s', order', k, pc, j);
    } else if HasWon(pc) {
      var i :| 0 <= i < k && order[i] == pc.dummy;
      assert order'[i] == pc.dummy;
    }
  }

  lemma AppendKeepsOrdered(s: State, t: nat, order: seq<nat>, k: nat)
    requires Inv(s) && Ordered(s, order, k) && Enabled(s, Act(t)) && s.threads[t].PushSwap? && !IsStale(s, Act(t))
    ensures Ordered(Next(s, Act(t)), order + [s.threads[t].mine], k)
  {
    var s', order' := Next(s, Act(t)), order + [s.threads[t].mine];
    assert ThreadOrdered(s, order, k, t);
    AppendKeepsNodes(s, t, order, k);
    forall u | 0 <= u < |s'.threads|
      ensures ThreadOrdered(s', order', k, u)
      ensures u != t && HasWon(s.threads[u]) ==> s.threads[u].dummy in order
    {
      assert ThreadOrdered(s, order, k, u);
      if u != t { AppendKeepsOthers(s, t, order, k, u); }
    }
  }

  // Exchanging the head.

  lemma StandsAtHead(s: State, t: nat, order: seq<nat>, k: nat)
    requires NodesOrdered(s, order, k) && t < |s.threads| && PopOrdered(s, order, k, s.threads[t]) && MovesHead(s, Act(t))
    ensures k + 1 < |order| && s.threads[t].was.ptr == At(order[k]) && s.threads[t].next == CountedPtr(1, At(order[k + 1]))
  {
    var j: nat :| PopStands(s, order, k, s.threads[t], j);
    if j != k { OtherPlaceOtherNode(order, j, k); }
  }

  lemma HeadMovesPast(s: State, t: nat, order: seq<nat>, k: nat)
    requires NodesOrdered(s, order, k) && t < |s.threads| && PopOrdered(s, order, k, s.threads[t])
    requires Enabled(s, Act(t)) && MovesHead(s, Act(t))
    ensures NodesOrdered(Next(s, Act(t)), order, k + 1)
    ensures PopTakes(Next(s, Act(t)), order, k + 1, Next(s, Act(t)).threads[t], k)
  {
    var s' := Next(s, Act(t));
    StandsAtHead(s, t, order, k);
    assert Carries(s, order, k);
    OtherPlaceOtherNode(order, k, k + 1);
    forall i | k <= i < |order| - 1 ensures Carries(s', order, i) { assert Carries(s, order, i); }
  }

  lemma HeadKeepsOthers(s: State, t: nat, order: seq<nat>, k: nat, u: nat)
    requires Enabled(s, Act(t)) && MovesHead(s, Act(t)) && u < |s.threads| && u != t && order != [] && ThreadOrdered(s, order, k, u)
    requires k + 1 < |order|
    ensures ThreadOrdered(Next(s, Act(t)), order, k + 1, u)
  {
    var s', pc := Next(s, Act(t)), s.threads[u];
    if pc.PopCheck? || pc.PopRead? || pc.PopSwap? {
      var j: nat :| PopStands(s, order, k, pc, j);
      assert PopStands(s', order, k + 1, pc, j);
    } else if pc.PopTake? {
      var j: nat :| PopTakes(s, order, k, pc, j);
      assert PopTakes(s', order, k + 1, pc, j);
    }
  }

  lemma HeadKeepsOrdered(s: State, t: nat, order: seq<nat>, k: nat)
    requires Ordered(s, order, k) && Enabled(s, Act(t)) && MovesHead(s, Act(t))
    ensures Ordered(Next(s, Act(t)), order, k + 1)
  {
    var s', past := Next(s, Act(t)), k + 1;
    assert ThreadOrdered(s, order, k, t);
    StandsAtHead(s, t, order, k);
    HeadMovesPast(s, t, order, k);
    forall u | 0 <= u < |s'.threads| ensures ThreadOrdered(s', order, past, u) {
      if u != t { HeadKeepsOthers(s, t, order, k, u); }
    }
  }

  // Taking the data.

  lemma TakeKeepsOthers(s: State, t: nat, order: seq<nat>, k: nat, u: nat)
    requires Enabled(s, Act(t)) && s.threads[t].PopTake? && u < |s.threads| && u != t && order != [] && ThreadOrdered(s, order, k, u)
    requires s.threads[t].was.ptr.n != order[|order| - 1]
    requires s.threads[u].PopTake? ==> s.threads[u].was.ptr != s.threads[t].was.ptr
    ensures ThreadOrdered(Next(s, Act(t)), order, k, u)
  {
    var s', pc := Next(s, Act(t)), s.threads[u];
    if pc.PopCheck? || pc.PopRead? || pc.PopSwap? {
      var j: nat :| PopStands(s, order, k, pc, j);
      assert PopStands(s', order, k, pc, j);
    } else if pc.PopTake? {
      var j: nat :| PopTakes(s, order, k, pc, j);
      assert PopTakes(s', order, k, pc, j);
    }
  }

  lemma TakeKeepsOrdered(s: State, t: nat, order: seq<nat>, k: nat)
    requires Inv(s) && Ordered(s, order, k) && Enabled(s, Act(t)) && s.threads[t].PopTake?
    ensures Ordered(Next(s, Act(t)), order, k)
  {
    var s' := Next(s, Act(t));
    assert ThreadOrdered(s, order, k, t) && ThreadInv(s, t);
    var j: nat :| PopTakes(s, order, k, s.threads[t], j);
    forall i | k <= i < |order| ensures order[i] != order[j] { OtherPlaceOtherNode(order, i, j); }
    LeavesNodesOrdered(s, s', order, k);
    forall u | 0 <= u < |s'.threads| ensures ThreadOrdered(s', order, k, u) {
      if u != t {
        assert ThreadInv(s, u);
        TakeKeepsOthers(s, t, order, k, u);
      }
    }
  }

  lemma StepKeepsOrdered(s: State, step: Step, order: seq<nat>, k: nat)
    requires Inv(s) && Ordered(s, order, k) && Enabled(s, step) && !IsStale(s, step)
    ensures Ordered(Next(s, step), OrderAfter(s, step, order), PastAfter(s, step, k))
  {
    if !step.Act? {
      StartKeepsOrdered(s, step, order, k);
    } else {
      var t, pc := step.t, s.threads[step.t];
      if IsQuiet(s, pc) { QuietStepKeepsOrdered(s, t, order, k); }
      else if pc.PushNext? { LinkKeepsOrdered(s, t, order, k); }
      else if pc.PushSwap? { AppendKeepsOrdered(s, t, order, k); }
      else if pc.PopTake? { TakeKeepsOrdered(s, t, order, k); }
      else if pc.PopSwap? { HeadKeepsOrdered(s, t, order, k); }
      else { WinKeepsOrdered(s, t, order, k); }
    }
  }

  // ---------- First in, first out ----------

  /** The nodes that the tail has led to before step `n`: the first one, and one for each push that has exchanged the tail. */
  ghost function Order(run: seq<State>, steps: seq<Step>, n: nat): seq<nat>
    requires |run| == |steps| + 1 && n <= |steps|
  {
    if n == 0 then [0] else OrderAfter(run[n - 1], steps[n - 1], Order(run, steps, n - 1))
  }

  /** How many pushes have exchanged the tail before step `n`. */
  ghost function Pushed(run: seq<State>, steps: seq<Step>, n: nat): int
    requires |run| == |steps| + 1 && n <= |steps|
  {
    |Order(run, steps, n)| - 1
  }

  /** How many pops have exchanged the head before step `n`. */
  ghost function Popped(run: seq<State>, steps: seq<Step>, n: nat): nat
    requires |run| == |steps| + 1 && n <= |steps|
  {
    if n == 0 then 0 else PastAfter(run[n - 1], steps[n - 1], Popped(run, steps, n - 1))
  }

  lemma InitIsOrdered(s: State)
    requires Init(s)
    ensures Ordered(s, [0], 0)
  {
  }

  lemma StepOfRunKeepsOrdered(run: seq<State>, steps: seq<Step>, n: nat)
    requires IsStepRun(run, steps) && NeverStale(run, steps) && 0 < n <= |steps|
    requires Inv(run[n - 1]) && Ordered(run[n - 1], Order(run, steps, n - 1), Popped(run, steps, n - 1))
    ensures Ordered(run[n], Order(run, steps, n), Popped(run, steps, n))
  {
    assert Takes(run[n - 1], steps[n - 1], run[n - 1 + 1]);
    StepKeepsOrdered(run[n - 1], steps[n - 1], Order(run, steps, n - 1), Popped(run, steps, n - 1));
  }

  lemma {:induction false} RunIsOrdered(run: seq<State>, steps: seq<Step>, n: nat)
    requires IsStepRun(run, steps) && NeverStale(run, steps) && n <= |steps|
    ensures Inv(run[n]) && Ordered(run[n], Order(run, steps, n), Popped(run, steps, n))
  {
    StepsMakeRun(run, steps);
    RunKeepsInv(run, n);
    if n > 0 {
      RunIsOrdered(run, steps, n - 1);
      StepOfRunKeepsOrdered(run, steps, n);
    } else {
      InitIsOrdered(run[0]);
    }
  }

  /** A push that is about to exchange the tail has linked its node behind the one whose data it has set. */
  predicate IsLinked(s: State, t: nat) {
    t < |s.threads| && s.threads[t].PushSwap? ==>
      s.threads[t].mine < |s.nodes| && s.nodes[s.threads[t].mine].pred == At(s.threads[t].dummy)
  }

  lemma StepKeepsLinked(s: State, step: Step, t: nat)
    requires Inv(s) && Enabled(s, step) && IsLinked(s, t)
    ensures IsLinked(Next(s, step), t)
  {
    assert ThreadInv(s, step.t);
    if t < |s.threads| {
      assert ThreadInv(s, t);
      if step.Act? && step.t != t { OthersKeepPred(s, step.t, t); }
    }
  }

  lemma OthersKeepPred(s: State, u: nat, t: nat)
    requires Enabled(s, Act(u)) && u != t && t < |s.threads| && MineInv(s, u) && MineInv(s, t)
    ensures s.threads[t].PushSwap? && s.threads[t].mine < |s.nodes| ==>
      Next(s, Act(u)).nodes[s.threads[t].mine].pred == s.nodes[s.threads[t].mine].pred
  {
  }

  lemma {:induction false} RunIsLinked(run: seq<State>, steps: seq<Step>, n: nat, t: nat)
    requires IsStepRun(run, steps) && n <= |steps|
    ensures Inv(run[n]) && IsLinked(run[n], t)
  {
    StepsMakeRun(run, steps);
    RunKeepsInv(run, n);
    if n > 0 {
      RunIsLinked(run, steps, n - 1, t);
      assert Takes(run[n - 1], steps[n - 1], run[n - 1 + 1]);
      StepKeepsLinked(run[n - 1], steps[n - 1], t);
    }
  }

  /** After a stale exchange the node that the tail led to does not lead to the new one. */
  lemma StaleBreaksOrder(s: State, step: Step, order: seq<nat>, k: nat)
    requires Inv(s) && NodesOrdered(s, order, k) && Enabled(s, step) && IsStale(s, step) && IsLinked(s, step.t)
    ensures !Ordered(Next(s, step), OrderAfter(s, step, order), PastAfter(s, step, k))
  {
    var s', order', e := Next(s, step), OrderAfter(s, step, order), order[|order| - 1];
    assert LinkInv(s, e, s.nodes[e].next);
    assert Ordered(s', order', k) ==> Carries(s', order', |order| - 1);
  }

  ghost predicate AlwaysOrdered(run: seq<State>, steps: seq<Step>)
    requires |run| == |steps| + 1
  {
    forall n | 0 <= n <= |steps| :: Ordered(run[n], Order(run, steps, n), Popped(run, steps, n))
  }

  /** The nodes of the queue lead, in every state of a run, from the head to the tail in the order in which pushes have exchanged the tail,
      each with the value of the next push - if and only if no exchange of the run is stale. */
  lemma OrderedIffNeverStale(run: seq<State>, steps: seq<Step>)
    requires IsStepRun(run, steps)
    ensures AlwaysOrdered(run, steps) <==> NeverStale(run, steps)
  {
    if NeverStale(run, steps) {
      forall n | 0 <= n <= |steps| ensures Ordered(run[n], Order(run, steps, n), Popped(run, steps, n)) { RunIsOrdered(run, steps, n); }
    } else {
      var i := FirstStale(run, steps);
      RunIsLinked(run, steps, i, steps[i].t);
      assert Takes(run[i], steps[i], run[i + 1]);
      if Ordered(run[i], Order(run, steps, i), Popped(run, steps, i)) {
        StaleBreaksOrder(run[i], steps[i], Order(run, steps, i), Popped(run, steps, i));
        assert !Ordered(run[i + 1], Order(run, steps, i + 1), Popped(run, steps, i + 1));
      }
    }
  }

  /** The order only grows. */
  lemma {:induction false} OrderGrows(run: seq<State>, steps: seq<Step>, m: nat, n: nat)
    requires |run| == |steps| + 1 && m <= n <= |steps|
    ensures Order(run, steps, m) <= Order(run, steps, n)
  {
    if m < n { OrderGrows(run, steps, m, n - 1); }
  }

  /** Each node of the order but the first was put there by a push. */
  lemma {:induction false} AppendedBy(run: seq<State>, steps: seq<Step>, n: nat, j: nat) returns (m: nat)
    requires |run| == |steps| + 1 && n <= |steps| && 0 < j < |Order(run, steps, n)|
    ensures m < n && Appends(run[m], steps[m]) && Pushed(run, steps, m) == j - 1
    ensures run[m].threads[steps[m].t].mine == Order(run, steps, n)[j]
  {
    assert n > 0;
    if j < |Order(run, steps, n - 1)| { m := AppendedBy(run, steps, n - 1, j); } else { m := n - 1; }
  }

  lemma StepKeepsBrings(s: State, step: Step, q: nat)
    requires Enabled(s, step) && q < |Next(s, step).nodes|
    ensures q < |s.nodes| ==> Next(s, step).nodes[q].brings == s.nodes[q].brings
    ensures q >= |s.nodes| ==> q == |s.nodes| && step.Push? && Next(s, step).nodes[q].brings == step.value
  {
  }

  /** Each node but the first was made by a push, for the value that it was called with. */
  lemma {:induction false} MadeBy(run: seq<State>, steps: seq<Step>, n: nat, q: nat) returns (i: nat)
    requires IsStepRun(run, steps) && n <= |steps| && 0 < q < |run[n].nodes|
    ensures i < n && steps[i].Push? && |run[i].nodes| == q && run[n].nodes[q].brings == steps[i].value
  {
    assert n > 0;
    assert Takes(run[n - 1], steps[n - 1], run[n - 1 + 1]);
    StepKeepsBrings(run[n - 1], steps[n - 1], q);
    if q < |run[n - 1].nodes| { i := MadeBy(run, steps, n - 1, q); } else { i := n - 1; }
  }

  predicate TakesWith(s: State, t: nat, was: CountedPtr) { t < |s.threads| && s.threads[t] == PopTake(was) }

  lemma TakesSince(s: State, step: Step, t: nat, was: CountedPtr)
    requires Enabled(s, step) && TakesWith(Next(s, step), t, was)
    ensures TakesWith(s, t, was) || (step == Act(t) && MovesHead(s, step) && s.threads[t].was == was)
  {
  }

  /** The pop has exchanged the head, and with it moved past the node whose data it is about to take. */
  lemma ExchangedBefore(run: seq<State>, steps: seq<Step>, n: nat, t: nat) returns (c: nat)
    requires IsStepRun(run, steps) && n <= |steps| && t < |run[n].threads| && run[n].threads[t].PopTake?
    ensures c < n && steps[c] == Act(t) && MovesHead(run[c], steps[c]) && run[c].threads[t].was == run[n].threads[t].was
    ensures forall i | c < i <= n :: TakesWith(run[i], t, run[n].threads[t].was)
  {
    var was := run[n].threads[t].was;
    var holds := (i: nat) => i <= |steps| && TakesWith(run[i], t, was);
    var event := (i: nat) =>
      0 < i <= |steps| && steps[i - 1] == Act(t) && MovesHead(run[i - 1], steps[i - 1]) && run[i - 1].threads[t].was == was;
    forall i: nat | i <= n ensures HoldsFrom(holds, event, i) {
      if holds(i) {
        assert i > 0;
        assert Takes(run[i - 1], steps[i - 1], run[i - 1 + 1]);
        TakesSince(run[i - 1], steps[i - 1], t, was);
      }
    }
    var since := Since(holds, event, n);
    c := since - 1;
    forall i | c < i <= n ensures TakesWith(run[i], t, was) { assert holds(i); }
  }

  /** A pop that is about to take data takes it from the node that it has moved the head past at step `c`. */
  lemma TakesWhereItMoved(run: seq<State>, steps: seq<Step>, c: nat, n: nat, t: nat)
    requires IsStepRun(run, steps) && NeverStale(run, steps) && c <= n <= |steps| && t < |run[c].threads| && t < |run[n].threads|
    requires MovesHead(run[c], Act(t)) && run[n].threads[t].PopTake? && run[n].threads[t].was == run[c].threads[t].was
    ensures PopTakes(run[n], Order(run, steps, n), Popped(run, steps, n), run[n].threads[t], Popped(run, steps, c))
  {
    RunIsOrdered(run, steps, c);
    StandsInRun(run[c], t, Order(run, steps, c), Popped(run, steps, c));
    RunIsOrdered(run, steps, n);
    OrderGrows(run, steps, c, n);
    var j := PlaceInRun(run[n], t, Order(run, steps, n), Popped(run, steps, n));
    if j != Popped(run, steps, c) { OtherPlaceOtherNode(Order(run, steps, n), j, Popped(run, steps, c)); }
  }

  lemma StandsInRun(s: State, t: nat, order: seq<nat>, k: nat)
    requires Ordered(s, order, k) && t < |s.threads| && MovesHead(s, Act(t))
    ensures k + 1 < |order| && s.threads[t].was.ptr == At(order[k])
  {
    assert ThreadOrdered(s, order, k, t);
    StandsAtHead(s, t, order, k);
  }

  lemma PlaceInRun(s: State, t: nat, order: seq<nat>, k: nat) returns (j: nat)
    requires Ordered(s, order, k) && t < |s.threads| && s.threads[t].PopTake?
    ensures PopTakes(s, order, k, s.threads[t], j) && Distinct(order)
  {
    assert ThreadOrdered(s, order, k, t);
    j :| PopTakes(s, order, k, s.threads[t], j);
  }

  /** The push that brought node `j` of the order. */
  lemma BroughtBy(run: seq<State>, steps: seq<Step>, n: nat, j: nat) returns (m: nat, i: nat)
    requires IsStepRun(run, steps) && n <= |steps| && 0 < j < |Order(run, steps, n)|
    ensures m < n && Appends(run[m], steps[m]) && Pushed(run, steps, m) == j - 1
    ensures i < m && steps[i].Push? && |run[i].nodes| == run[m].threads[steps[m].t].mine == Order(run, steps, n)[j] < |run[n].nodes|
    ensures run[n].nodes[Order(run, steps, n)[j]].brings == steps[i].value
  {
    m := AppendedBy(run, steps, n, j);
    i := MadeBefore(run, steps, m, n);
  }

  /** In a run without a stale exchange, for one with a single producer, the queue is first in, first out: the pop that exchanges the head
      at step `c`, after `j` others, comes back with the value of the push that exchanges the tail at step `m`, after `j` others;
      step `i` is the call of that push, which made its node. */
  lemma FifoWhileNeverStale(run: seq<State>, steps: seq<Step>, n: nat, t: nat) returns (c: nat, m: nat, i: nat)
    requires IsStepRun(run, steps) && NeverStale(run, steps) && n < |steps|
    requires steps[n] == Act(t) && t < |run[n].threads| && run[n].threads[t].PopTake?
    ensures c < n && steps[c] == Act(t) && MovesHead(run[c], steps[c])
    ensures forall x | c < x <= n :: TakesWith(run[x], t, run[n].threads[t].was)
    ensures m < n && Appends(run[m], steps[m]) && Pushed(run, steps, m) == Popped(run, steps, c)
    ensures i < m && steps[i].Push? && |run[i].nodes| == run[m].threads[steps[m].t].mine
    ensures run[n + 1].threads[t] == PopFree(run[n].threads[t].was, At(steps[i].value))
  {
    c := ExchangedBefore(run, steps, n, t);
    TakesWhereItMoved(run, steps, c, n, t);
    m, i := BroughtBy(run, steps, n, Popped(run, steps, c) + 1);
    assert Takes(run[n], steps[n], run[n + 1]);
    TakesData(run[n], run[n + 1], steps[n], t);
  }

  lemma TakesData(s: State, s': State, step: Step, t: nat)
    requires Takes(s, step, s') && step == Act(t) && s.threads[t].PopTake?
    ensures Valid(s, s.threads[t].was.ptr) && t < |s'.threads|
    ensures s'.threads[t] == PopFree(s.threads[t].was, s.nodes[s.threads[t].was.ptr.n].data)
  {
  }

  lemma MadeBefore(run: seq<State>, steps: seq<Step>, m: nat, n: nat) returns (i: nat)
    requires IsStepRun(run, steps) && m < n <= |steps| && Appends(run[m], steps[m])
    ensures i < m && steps[i].Push? && |run[i].nodes| == run[m].threads[steps[m].t].mine < |run[n].nodes|
    ensures run[n].nodes[run[m].threads[steps[m].t].mine].brings == steps[i].value
  {
    StepsMakeRun(run, steps);
    RunKeepsInv(run, m);
    var q := run[m].threads[steps[m].t].mine;
    assert ThreadInv(run[m], steps[m].t);
    i := MadeBy(run, steps, m, q);
    BringsStays(run, steps, m, n, q);
  }

  lemma {:induction false} BringsStays(run: seq<State>, steps: seq<Step>, m: nat, n: nat, q: nat)
    requires IsStepRun(run, steps) && m <= n <= |steps| && q < |run[m].nodes|
    ensures q < |run[n].nodes| && run[n].nodes[q].brings == run[m].nodes[q].brings
  {
    if m < n {
      BringsStays(run, steps, m, n - 1, q);
      assert Takes(run[n - 1], steps[n - 1], run[n - 1 + 1]);
      NodesStay(run[n - 1], steps[n - 1]);
      StepKeepsBrings(run[n - 1], steps[n - 1], q);
    }
  }

  lemma NodesStay(s: State, step: Step)
    requires Enabled(s, step)
    ensures |Next(s, step).nodes| >= |s.nodes|
  {
  }

  /** In such a run a pop finds the queue empty only if as many pops have exchanged the head as pushes the tail. */
  lemma EmptyMeansEmpty(run: seq<State>, steps: seq<Step>, n: nat, t: nat)
    requires IsStepRun(run, steps) && NeverStale(run, steps) && n < |steps|
    requires steps[n] == Act(t) && t < |run[n].threads| && run[n].threads[t].PopCheck? && run[n + 1].threads[t].PopEmpty?
    ensures Popped(run, steps, n) == Pushed(run, steps, n)
  {
    RunIsOrdered(run, steps, n);
    assert Takes(run[n], steps[n], run[n + 1]);
    var order, k := Order(run, steps, n), Popped(run, steps, n);
    assert ThreadOrdered(run[n], order, k, t);
    var j: nat :| PopStands(run[n], order, k, run[n].threads[t], j);
    if j != |order| - 1 { OtherPlaceOtherNode(order, j, |order| - 1); }
  }

  // ---------- How pushes and pops end ----------

  predicate IsPush(pc: Pc) { Pushing(pc) || pc.PushFree? }

  predicate IsPop(pc: Pc) { !IsPush(pc) && !pc.Idle? }

  predicate FreesTail(s: State, t: nat) { t < |s.threads| && s.threads[t].PushFree? }

  lemma FreesSince(s: State, step: Step, t: nat)
    requires Enabled(s, step) && FreesTail(Next(s, step), t)
    ensures FreesTail(s, t) || (step == Act(t) && Appends(s, step))
  {
  }

  /** A push never gives up: when it returns, stale exchanges or not, it has exchanged the tail, at step `m`. */
  lemma PushEndsAppended(run: seq<State>, steps: seq<Step>, n: nat, t: nat) returns (m: nat)
    requires IsStepRun(run, steps) && n < |steps| && steps[n] == Act(t)
    requires t < |run[n].threads| && IsPush(run[n].threads[t]) && t < |run[n + 1].threads| && run[n + 1].threads[t].Idle?
    ensures m < n && steps[m] == Act(t) && Appends(run[m], steps[m]) && forall i | m < i <= n :: FreesTail(run[i], t)
  {
    assert Takes(run[n], steps[n], run[n + 1]);
    var holds := (i: nat) => i <= |steps| && FreesTail(run[i], t);
    var event := (i: nat) => 0 < i <= |steps| && steps[i - 1] == Act(t) && Appends(run[i - 1], steps[i - 1]);
    forall i: nat | i <= n ensures HoldsFrom(holds, event, i) {
      if holds(i) {
        assert i > 0;
        assert Takes(run[i - 1], steps[i - 1], run[i - 1 + 1]);
        FreesSince(run[i - 1], steps[i - 1], t);
      }
    }
    var since := Since(holds, event, n);
    m := since - 1;
    forall i | m < i <= n ensures FreesTail(run[i], t) { assert holds(i); }
  }

  /** Nor does a pop: when it returns, it has found the queue empty, or taken the data of a node that it has moved the head past. */
  lemma PopEnds(s: State, t: nat)
    requires Enabled(s, Act(t)) && IsPop(s.threads[t]) && Next(s, Act(t)).threads[t].Idle?
    ensures s.threads[t].PopEmpty? || s.threads[t].PopFree?
  {
  }

  // ---------- Pushes and pops that nobody interferes with ----------

  ghost predicate ActsAlone(s: State, s': State, t: nat) {
    Enabled(s, Act(t)) && !IsStale(s, Act(t)) && s' == Next(s, Act(t))
  }

  /** In `run` nobody but thread `t` takes a step. */
  ghost predicate Alone(run: seq<State>, t: nat) {
    |run| > 0 && forall n | 0 < n < |run| :: ActsAlone(run[n - 1], run[n], t)
  }

  lemma ActOn(s: State, t: nat, order: seq<nat>, k: nat) returns (s': State)
    requires Inv(s) && Ordered(s, order, k) && Enabled(s, Act(t)) && !IsStale(s, Act(t))
    ensures ActsAlone(s, s', t) && Inv(s') && Ordered(s', OrderAfter(s, Act(t), order), PastAfter(s, Act(t), k))
  {
    s' := Next(s, Act(t));
    StepKeepsInv(s, Act(t));
    StepKeepsOrdered(s, Act(t), order, k);
  }

  /** A push that nobody interferes with appends its value, if no other push is between setting the data of the tail's node and
      exchanging the tail. */
  lemma PushAlone(s: State, order: seq<nat>, k: nat, t: nat, value: nat) returns (run: seq<State>)
    requires Inv(s) && Ordered(s, order, k) && Enabled(s, Push(t, value)) && s.nodes[order[|order| - 1]].data == Null
    ensures Alone(run, t) && run[0] == Next(s, Push(t, value))
    ensures var last, q := run[|run| - 1], |s.nodes|;
      && last.threads == s.threads && Inv(last) && Ordered(last, order + [q], k)
      && q < |last.nodes| && last.nodes[q].brings == value && last.nodes[q].data == Null
  {
    var s0 := Next(s, Push(t, value));
    StepKeepsInv(s, Push(t, value));
    StepKeepsOrdered(s, Push(t, value), order, k);
    var s1 := ActOn(s0, t, order, k);
    var s2 := ActOn(s1, t, order, k);
    var rest := WinsAlone(s2, order, k, t);
    run := [s0, s1] + rest;
    assert rest[|rest| - 1].threads == s.threads;
  }

  lemma WinsAlone(s: State, order: seq<nat>, k: nat, t: nat) returns (run: seq<State>)
    requires Inv(s) && Ordered(s, order, k) && t < |s.threads| && s.threads[t].PushData?
    requires s.threads[t].was.ptr == s.tail.ptr && s.nodes[order[|order| - 1]].data == Null
    requires s.threads[t].mine < |s.nodes| && s.nodes[s.threads[t].mine].data == Null
    ensures Alone(run, t) && run[0] == s
    ensures var last, q := run[|run| - 1], s.threads[t].mine;
      && last.threads == s.threads[t := Idle] && Inv(last) && Ordered(last, order + [q], k)
      && q < |last.nodes| && last.nodes[q].brings == s.nodes[q].brings && last.nodes[q].data == Null
  {
    assert ThreadInv(s, t);
    var q, d := s.threads[t].mine, order[|order| - 1];
    var s1 := ActOn(s, t, order, k);
    assert s1.threads == s.threads[t := PushNext(q, d)] && s1.tail == s.tail && SameMine(s, s1, q);
    var s2 := ActOn(s1, t, order, k);
    assert s2.threads == s.threads[t := PushSwap(q, d)] && s2.tail == s.tail && SameMine(s1, s2, q);
    var rest := AppendsAlone(s2, order, k, t);
    run := [s, s1] + rest;
    assert rest[|rest| - 1].threads == s.threads[t := Idle];
  }

  ghost predicate SameMine(s: State, s': State, q: nat) {
    q < |s.nodes| <= |s'.nodes| && s'.nodes[q].brings == s.nodes[q].brings && s'.nodes[q].data == s.nodes[q].data
  }

  lemma AppendsAlone(s: State, order: seq<nat>, k: nat, t: nat) returns (run: seq<State>)
    requires Inv(s) && Ordered(s, order, k) && t < |s.threads| && s.threads[t].PushSwap? && At(s.threads[t].dummy) == s.tail.ptr
    ensures Alone(run, t) && run[0] == s
    ensures var last, q := run[|run| - 1], s.threads[t].mine;
      last.threads == s.threads[t := Idle] && Inv(last) && Ordered(last, order + [q], k) && SameMine(s, last, q)
  {
    assert ThreadInv(s, t);
    var q := s.threads[t].mine;
    var s1 := ActOn(s, t, order, k);
    assert s1.threads == s.threads[t := PushFree(s.tail)] && SameMine(s, s1, q);
    var s2 := FreesAlone(s1, order + [q], k, t, q);
    run := [s, s1, s2];
  }

  lemma FreesAlone(s: State, order: seq<nat>, k: nat, t: nat, q: nat) returns (s': State)
    requires Inv(s) && Ordered(s, order, k) && t < |s.threads| && s.threads[t].PushFree? && q < |s.nodes|
    ensures ActsAlone(s, s', t) && Inv(s') && Ordered(s', order, k) && s'.threads == s.threads[t := Idle] && SameMine(s, s', q)
  {
    assert ThreadInv(s, t);
    s' := ActOn(s, t, order, k);
  }

  lemma LooksAlone(s: State, order: seq<nat>, k: nat, t: nat) returns (s1: State, s2: State)
    requires Inv(s) && Ordered(s, order, k) && t < |s.threads| && s.threads[t] == PopLoad
    ensures ActsAlone(s, s1, t) && ActsAlone(s1, s2, t) && Inv(s2) && Ordered(s2, order, k) && s2.nodes == s.nodes
    ensures s2.threads == s.threads[t := PopCheck(s2.head)]
  {
    s1 := ActOn(s, t, order, k);
    assert s1.threads == s.threads[t := PopInc(s.head)];
    s2 := ActOn(s1, t, order, k);
    assert s2.threads == s.threads[t := PopCheck(s2.head)];
  }

  /** A pop that nobody interferes with comes back with the value of the push that comes next in the order, and without one exactly
      if there is none. */
  lemma PopAlone(s: State, order: seq<nat>, k: nat, t: nat) returns (run: seq<State>)
    requires Inv(s) && Ordered(s, order, k) && Enabled(s, Pop(t))
    ensures Alone(run, t) && run[0] == Next(s, Pop(t)) && |run| > 1
    ensures var before, last := run[|run| - 2], run[|run| - 1];
      && last.threads == s.threads && Inv(last) && t < |before.threads|
      && (k + 1 == |order| ==> Ordered(last, order, k) && before.threads[t].PopEmpty?)
      && (k + 1 < |order| ==> Ordered(last, order, k + 1) && order[k + 1] < |s.nodes|)
      && (k + 1 < |order| ==> before.threads[t].PopFree? && before.threads[t].res == At(s.nodes[order[k + 1]].brings))
  {
    var s0 := Next(s, Pop(t));
    StepKeepsInv(s, Pop(t));
    StepKeepsOrdered(s, Pop(t), order, k);
    var s1, s2 := LooksAlone(s0, order, k, t);
    var rest;
    if k + 1 == |order| { rest := FindsNothing(s2, order, k, t); } else { rest := FindsNode(s2, order, k, t); }
    run := [s0, s1] + rest;
    assert rest[|rest| - 1].threads == s.threads;
  }

  lemma FindsNothing(s: State, order: seq<nat>, k: nat, t: nat) returns (run: seq<State>)
    requires Inv(s) && Ordered(s, order, k) && t < |s.threads| && s.threads[t] == PopCheck(s.head) && k + 1 == |order|
    ensures Alone(run, t) && run[0] == s && |run| == 3
    ensures run[2].threads == s.threads[t := Idle] && Inv(run[2]) && Ordered(run[2], order, k)
    ensures t < |run[1].threads| && run[1].threads[t].PopEmpty?
  {
    var s1 := ActOn(s, t, order, k);
    var s2 := ActOn(s1, t, order, k);
    assert s2.threads == s.threads[t := Idle];
    run := [s, s1, s2];
  }

  lemma FindsNode(s: State, order: seq<nat>, k: nat, t: nat) returns (run: seq<State>)
    requires Inv(s) && Ordered(s, order, k) && t < |s.threads| && s.threads[t] == PopCheck(s.head) && k + 1 < |order|
    ensures Alone(run, t) && run[0] == s && |run| > 1 && order[k + 1] < |s.nodes|
    ensures var before, last := run[|run| - 2], run[|run| - 1];
      && last.threads == s.threads[t := Idle] && Inv(last) && Ordered(last, order, k + 1) && t < |before.threads|
      && before.threads[t].PopFree? && before.threads[t].res == At(s.nodes[order[k + 1]].brings)
  {
    OtherPlaceOtherNode(order, k, |order| - 1);
    var s1 := ActOn(s, t, order, k);
    assert s1.threads == s.threads[t := PopRead(s1.head)] && s1.nodes == s.nodes;
    var rest := TakesAlone(s1, order, k, t);
    run := [s] + rest;
    assert rest[|rest| - 1].threads == s.threads[t := Idle];
  }

  lemma TakesAlone(s: State, order: seq<nat>, k: nat, t: nat) returns (run: seq<State>)
    requires Inv(s) && Ordered(s, order, k) && k + 1 < |order|
    requires t < |s.threads| && s.threads[t].PopRead? && s.threads[t].was == s.head
    ensures Alone(run, t) && run[0] == s && |run| > 1 && order[k + 1] < |s.nodes|
    ensures var before, last := run[|run| - 2], run[|run| - 1];
      && last.threads == s.threads[t := Idle] && Inv(last) && Ordered(last, order, k + 1) && t < |before.threads|
      && before.threads[t].PopFree? && before.threads[t].res == At(s.nodes[order[k + 1]].brings)
  {
    var s1 := ReadsNext(s, order, k, t);
    var s2 := ExchangesHead(s1, order, k, t);
    var rest := ComesBackAlone(s2, order, k + 1, t);
    run := [s, s1] + rest;
  }

  lemma ReadsNext(s: State, order: seq<nat>, k: nat, t: nat) returns (s': State)
    requires Inv(s) && Ordered(s, order, k) && k + 1 < |order|
    requires t < |s.threads| && s.threads[t].PopRead? && s.threads[t].was == s.head
    ensures ActsAlone(s, s', t) && Inv(s') && Ordered(s', order, k) && s'.nodes == s.nodes && s'.head == s.head
    ensures s'.threads == s.threads[t := PopSwap(s.head, CountedPtr(1, At(order[k + 1])))]
  {
    assert Carries(s, order, k);
    s' := ActOn(s, t, order, k);
  }

  lemma ExchangesHead(s: State, order: seq<nat>, k: nat, t: nat) returns (s': State)
    requires Inv(s) && Ordered(s, order, k) && k + 1 < |order|
    requires t < |s.threads| && s.threads[t] == PopSwap(s.head, CountedPtr(1, At(order[k + 1])))
    ensures ActsAlone(s, s', t) && Inv(s') && Ordered(s', order, k + 1) && s'.threads == s.threads[t := PopTake(s.head)]
    ensures s.head.ptr == At(order[k]) && order[k] < |s'.nodes| && order[k + 1] < |s.nodes|
    ensures s'.nodes[order[k]].data == At(s.nodes[order[k + 1]].brings)
  {
    assert Carries(s, order, k);
    OtherPlaceOtherNode(order, k, k + 1);
    s' := ActOn(s, t, order, k);
  }

  lemma ComesBackAlone(s: State, order: seq<nat>, k: nat, t: nat) returns (run: seq<State>)
    requires Inv(s) && Ordered(s, order, k) && t < |s.threads| && s.threads[t].PopTake?
    ensures Alone(run, t) && run[0] == s && |run| == 3 && Valid(s, s.threads[t].was.ptr)
    ensures var before, last := run[1], run[2];
      && last.threads == s.threads[t := Idle] && Inv(last) && Ordered(last, order, k)
      && before.threads == s.threads[t := PopFree(s.threads[t].was, s.nodes[s.threads[t].was.ptr.n].data)]
  {
    assert ThreadInv(s, t);
    var s1 := ActOn(s, t, order, k);
    assert s1.threads == s.threads[t := PopFree(s.threads[t].was, s.nodes[s.threads[t].was.ptr.n].data)];
    var s2 := ActOn(s1, t, order, k);
    assert s2.threads == s.threads[t := Idle];
    run := [s, s1, s2];
  }
}
