/** The nodes and bucket arrays of the hash map of hazptr/ConcurrentHashMap-detail.h, as a heap of objects: bucket slots and the
    `next_` pointers of nodes refer to nodes, several of them to the same node when chains share a tail, and each node counts
    the references to it. A node whose count falls to zero is retired; some time later it is deleted, and lets go of its `next_`. */
module SharedChains {
  import opened Links
  import opened Sums

  /** `rank` is history: it falls along every chain. */
  datatype Node<K, V> = Node(key: K, val: V, next: Ptr, refs: int, deleted: bool, rank: nat)

  /** Every node and every bucket array that has been allocated. The slots of an array that has been destroyed are null. */
  datatype Heap<K, V> = Heap(nodes: seq<Node<K, V>>, arrays: seq<seq<Ptr>>)

  predicate IsSlot<K, V>(h: Heap<K, V>, a: nat, b: nat) { a < |h.arrays| && b < |h.arrays[a]| }

  // ---------- References ----------

  function SlotTo(n: nat): Ptr -> int { (p: Ptr) => if p == At(n) then 1 else 0 }

  function EdgeTo<K, V>(n: nat): Node<K, V> -> int { (x: Node<K, V>) => if x.next == At(n) then 1 else 0 }

  ghost function ArrayTo(n: nat): seq<Ptr> -> int { (slots: seq<Ptr>) => Sum(SlotTo(n), slots) }

  /** The number of references to `n`, from bucket slots and from nodes that have not been deleted. */
  ghost function InDegree<K, V>(h: Heap<K, V>, n: nat): int {
    Sum(ArrayTo(n), h.arrays) + Sum(EdgeTo<K, V>(n), h.nodes)
  }

  predicate Leads<K, V>(h: Heap<K, V>, p: Ptr) { p.At? ==> p.n < |h.nodes| && !h.nodes[p.n].deleted }

  ghost predicate NodeInv<K, V>(h: Heap<K, V>, n: nat)
    requires n < |h.nodes|
  {
    var node := h.nodes[n];
    && node.refs == InDegree(h, n)
    && (node.next.At? ==> node.next.n < |h.nodes| && h.nodes[node.next.n].rank < node.rank)
    && (node.deleted ==> node.refs == 0 && node.next == Null)
  }

  ghost predicate Inv<K, V>(h: Heap<K, V>) {
    && (forall n | 0 <= n < |h.nodes| :: NodeInv(h, n))
    && (forall a, b | 0 <= a < |h.arrays| && 0 <= b < |h.arrays[a]| && h.arrays[a][b].At? :: h.arrays[a][b].n < |h.nodes|)
  }

  // ---------- What the operations do to references ----------

  /** acquire (`d` is 1) or release (`d` is -1) of the node that `p` leads to, if any. */
  function Count<K, V>(nodes: seq<Node<K, V>>, p: Ptr, d: int): seq<Node<K, V>> {
    if p.At? && p.n < |nodes| then nodes[p.n := nodes[p.n].(refs := nodes[p.n].refs + d)] else nodes
  }

  /** A slot is made to refer to `q` instead of what it refers to now. */
  function SetSlot<K, V>(h: Heap<K, V>, a: nat, b: nat, q: Ptr): Heap<K, V>
    requires IsSlot(h, a, b)
  {
    Heap(Count(Count(h.nodes, q, 1), h.arrays[a][b], -1), h.arrays[a := h.arrays[a][b := q]])
  }

  /** A node is made to refer to `q` instead of what it refers to now. */
  function SetNext<K, V>(h: Heap<K, V>, m: nat, q: Ptr): Heap<K, V>
    requires m < |h.nodes|
  {
    var nodes := Count(Count(h.nodes, q, 1), h.nodes[m].next, -1);
    h.(nodes := nodes[m := nodes[m].(next := q)])
  }

  /** A new node, not yet referred to, that leads to `p`. */
  function Allocate<K, V>(h: Heap<K, V>, key: K, val: V, rank: nat): Heap<K, V> {
    h.(nodes := h.nodes + [Node(key, val, Null, 0, false, rank)])
  }

  /** A node without references is deleted, and releases the node that it refers to. */
  function Delete<K, V>(h: Heap<K, V>, n: nat): Heap<K, V>
    requires n < |h.nodes|
  {
    var h1 := SetNext(h, n, Null);
    h1.(nodes := h1.nodes[n := h1.nodes[n].(deleted := true)])
  }

  // ---------- Counts are exact ----------

  lemma CountKeepsEdges<K, V>(nodes: seq<Node<K, V>>, p: Ptr, d: int, n: nat)
    ensures Sum(EdgeTo<K, V>(n), Count(nodes, p, d)) == Sum(EdgeTo<K, V>(n), nodes)
  {
    if p.At? && p.n < |nodes| { SumUpdate(EdgeTo<K, V>(n), nodes, p.n, nodes[p.n].(refs := nodes[p.n].refs + d)); }
  }

  lemma SetSlotDegree<K, V>(h: Heap<K, V>, a: nat, b: nat, q: Ptr, n: nat)
    requires IsSlot(h, a, b)
    ensures InDegree(SetSlot(h, a, b, q), n) == InDegree(h, n) + SlotTo(n)(q) - SlotTo(n)(h.arrays[a][b])
  {
    CountKeepsEdges(Count(h.nodes, q, 1), h.arrays[a][b], -1, n);
    CountKeepsEdges(h.nodes, q, 1, n);
    SumUpdate(ArrayTo(n), h.arrays, a, h.arrays[a][b := q]);
    SumUpdate(SlotTo(n), h.arrays[a], b, q);
  }

  lemma SetNextDegree<K, V>(h: Heap<K, V>, m: nat, q: Ptr, n: nat)
    requires m < |h.nodes|
    ensures InDegree(SetNext(h, m, q), n) == InDegree(h, n) + SlotTo(n)(q) - SlotTo(n)(h.nodes[m].next)
  {
    var p := h.nodes[m].next;
    CountKeepsEdges(Count(h.nodes, q, 1), p, -1, n);
    CountKeepsEdges(h.nodes, q, 1, n);
    var nodes := Count(Count(h.nodes, q, 1), p, -1);
    SumUpdate(EdgeTo<K, V>(n), nodes, m, nodes[m].(next := q));
  }

  lemma RefsAfter<K, V>(nodes: seq<Node<K, V>>, p: Ptr, q: Ptr, n: nat)
    requires n < |nodes|
    ensures |Count(Count(nodes, q, 1), p, -1)| == |nodes|
    ensures Count(Count(nodes, q, 1), p, -1)[n] == nodes[n].(refs := nodes[n].refs + SlotTo(n)(q) - SlotTo(n)(p))
  {
  }

  /** Something that is referred to has not been deleted. */
  lemma SlotLeads<K, V>(h: Heap<K, V>, a: nat, b: nat)
    requires Inv(h) && IsSlot(h, a, b)
    ensures Leads(h, h.arrays[a][b])
    ensures h.arrays[a][b].At? ==> h.nodes[h.arrays[a][b].n].refs > 0
  {
    var p := h.arrays[a][b];
    if p.At? {
      forall slots | slots in h.arrays ensures 0 <= ArrayTo(p.n)(slots) { SumIsZero(SlotTo(p.n), slots); }
      SumAtLeast(ArrayTo(p.n), h.arrays, a);
      SumAtLeast(SlotTo(p.n), h.arrays[a], b);
      SumIsZero(EdgeTo<K, V>(p.n), h.nodes);
      assert NodeInv(h, p.n);
    }
  }

  lemma NextLeads<K, V>(h: Heap<K, V>, m: nat)
    requires Inv(h) && m < |h.nodes|
    ensures Leads(h, h.nodes[m].next)
    ensures h.nodes[m].next.At? ==> h.nodes[h.nodes[m].next.n].refs > 0
  {
    var p := h.nodes[m].next;
    assert NodeInv(h, m);
    if p.At? {
      forall slots | slots in h.arrays ensures 0 <= ArrayTo(p.n)(slots) { SumIsZero(SlotTo(p.n), slots); }
      SumIsZero(ArrayTo(p.n), h.arrays);
      SumAtLeast(EdgeTo<K, V>(p.n), h.nodes, m);
      assert NodeInv(h, p.n);
    }
  }

  lemma SetSlotKeepsInv<K, V>(h: Heap<K, V>, a: nat, b: nat, q: Ptr)
    requires Inv(h) && IsSlot(h, a, b) && Leads(h, q)
    ensures Inv(SetSlot(h, a, b, q))
  {
    var h' := SetSlot(h, a, b, q);
    forall n | 0 <= n < |h'.nodes| ensures NodeInv(h', n) {
      assert NodeInv(h, n);
      SetSlotDegree(h, a, b, q, n);
      RefsAfter(h.nodes, h.arrays[a][b], q, n);
      SlotLeads(h, a, b);
      if h.nodes[n].next.At? { RefsAfter(h.nodes, h.arrays[a][b], q, h.nodes[n].next.n); }
    }
  }

  lemma SetNextKeepsInv<K, V>(h: Heap<K, V>, m: nat, q: Ptr)
    requires Inv(h) && m < |h.nodes| && !h.nodes[m].deleted && Leads(h, q)
    requires q.At? ==> h.nodes[q.n].rank < h.nodes[m].rank
    ensures Inv(SetNext(h, m, q))
  {
    var h' := SetNext(h, m, q);
    forall n | 0 <= n < |h'.nodes| ensures NodeInv(h', n) {
      assert NodeInv(h, n);
      SetNextDegree(h, m, q, n);
      RefsAfter(h.nodes, h.nodes[m].next, q, n);
      NextLeads(h, m);
      if h'.nodes[n].next.At? { RefsAfter(h.nodes, h.nodes[m].next, q, h'.nodes[n].next.n); }
    }
  }

  lemma AllocateKeepsInv<K, V>(h: Heap<K, V>, key: K, val: V, rank: nat)
    requires Inv(h)
    ensures Inv(Allocate(h, key, val, rank))
  {
    var h' := Allocate(h, key, val, rank);
    forall n | 0 <= n < |h'.nodes| ensures NodeInv(h', n) {
      SumAppend(EdgeTo<K, V>(n), h.nodes, h'.nodes[|h.nodes|]);
      if n < |h.nodes| { assert NodeInv(h, n); } else { NobodyRefersBeyond(h, n); }
    }
  }

  lemma NobodyRefersBeyond<K, V>(h: Heap<K, V>, n: nat)
    requires Inv(h) && n >= |h.nodes|
    ensures InDegree(h, n) == 0
  {
    forall a | 0 <= a < |h.arrays| ensures ArrayTo(n)(h.arrays[a]) == 0 { SumIsZero(SlotTo(n), h.arrays[a]); }
    forall slots | slots in h.arrays ensures 0 <= ArrayTo(n)(slots) { SumIsZero(SlotTo(n), slots); }
    SumIsZero(ArrayTo(n), h.arrays);
    forall m | 0 <= m < |h.nodes| ensures EdgeTo<K, V>(n)(h.nodes[m]) == 0 { assert NodeInv(h, m); }
    SumIsZero(EdgeTo<K, V>(n), h.nodes);
  }

  lemma AddArrayKeepsInv<K, V>(h: Heap<K, V>, slots: seq<Ptr>)
    requires Inv(h) && forall b | 0 <= b < |slots| :: slots[b] == Null
    ensures Inv(h.(arrays := h.arrays + [slots]))
  {
    var h' := h.(arrays := h.arrays + [slots]);
    forall n | 0 <= n < |h'.nodes| ensures NodeInv(h', n) {
      assert NodeInv(h, n);
      SumAppend(ArrayTo(n), h.arrays, slots);
      SumIsZero(SlotTo(n), slots);
    }
  }

  lemma DeleteKeepsInv<K, V>(h: Heap<K, V>, n: nat)
    requires Inv(h) && n < |h.nodes| && !h.nodes[n].deleted && h.nodes[n].refs == 0
    ensures Inv(Delete(h, n))
  {
    var h1 := SetNext(h, n, Null);
    SetNextKeepsInv(h, n, Null);
    RefsAfter(h.nodes, h.nodes[n].next, Null, n);
    assert NodeInv(h, n);
    var h' := Delete(h, n);
    forall m | 0 <= m < |h'.nodes| ensures NodeInv(h', m) {
      assert NodeInv(h1, m);
      SumUpdate(EdgeTo<K, V>(m), h1.nodes, n, h'.nodes[n]);
    }
  }

  // ---------- Deleted exactly when unreachable ----------

  /** Some bucket slot refers to `n`. */
  ghost predicate Rooted<K, V>(h: Heap<K, V>, n: nat) { exists a: nat, b: nat :: IsSlot(h, a, b) && h.arrays[a][b] == At(n) }

  predicate RefersTo<K, V>(h: Heap<K, V>, m: nat, n: nat) { m < |h.nodes| && h.nodes[m].next == At(n) }

  /** `path` leads from a bucket slot along next pointers to its last node. */
  ghost predicate IsPath<K, V>(h: Heap<K, V>, path: seq<nat>) {
    path != [] && Rooted(h, path[0]) && forall i | 0 <= i < |path| - 1 :: RefersTo(h, path[i], path[i + 1])
  }

  ghost predicate Reachable<K, V>(h: Heap<K, V>, n: nat) { exists path :: IsPath(h, path) && path[|path| - 1] == n }

  /** What a reader can get to from any bucket array that has not been destroyed is not deleted. */
  lemma {:induction false} ReachableIsNotDeleted<K, V>(h: Heap<K, V>, path: seq<nat>)
    requires Inv(h) && IsPath(h, path)
    ensures Leads(h, At(path[|path| - 1]))
  {
    if |path| == 1 {
      var a: nat, b: nat :| IsSlot(h, a, b) && h.arrays[a][b] == At(path[0]);
      SlotLeads(h, a, b);
    } else {
      var init := path[..|path| - 1];
      ReachableIsNotDeleted(h, init);
      assert RefersTo(h, path[|path| - 2], path[|path| - 2 + 1]);
      NextLeads(h, path[|path| - 2]);
    }
  }

  /** A node that has references is referred to by a slot or by another node. */
  lemma SomethingRefers<K, V>(h: Heap<K, V>, n: nat)
    requires Inv(h) && n < |h.nodes| && h.nodes[n].refs != 0
    ensures Rooted(h, n) || exists m: nat :: RefersTo(h, m, n)
  {
    assert NodeInv(h, n);
    if forall m: nat :: !RefersTo(h, m, n) {
      forall m | 0 <= m < |h.nodes| ensures EdgeTo<K, V>(n)(h.nodes[m]) == 0 { assert !RefersTo(h, m, n); }
      SumIsZero(EdgeTo<K, V>(n), h.nodes);
      assert Sum(ArrayTo(n), h.arrays) != 0;
      forall slots | slots in h.arrays ensures 0 <= ArrayTo(n)(slots) { SumIsZero(SlotTo(n), slots); }
      SumIsZero(ArrayTo(n), h.arrays);
      var a: nat :| a < |h.arrays| && ArrayTo(n)(h.arrays[a]) != 0;
      SumIsZero(SlotTo(n), h.arrays[a]);
      var b: nat :| b < |h.arrays[a]| && SlotTo(n)(h.arrays[a][b]) != 0;
      assert IsSlot(h, a, b);
    }
  }

  /** No retired node is waiting to be deleted. */
  ghost predicate Quiet<K, V>(h: Heap<K, V>) { forall n | 0 <= n < |h.nodes| :: h.nodes[n].deleted || h.nodes[n].refs != 0 }

  ghost function HighestRank<K, V>(nodes: seq<Node<K, V>>): (top: nat)
    ensures forall n | 0 <= n < |nodes| :: nodes[n].rank <= top
  {
    if nodes == [] then 0
    else
      var rest, last := HighestRank(nodes[..|nodes| - 1]), nodes[|nodes| - 1].rank;
      if rest < last then last else rest
  }

  lemma {:induction false} KeptIsReachable<K, V>(h: Heap<K, V>, n: nat)
    requires Inv(h) && Quiet(h) && n < |h.nodes| && !h.nodes[n].deleted
    ensures Reachable(h, n)
    decreases HighestRank(h.nodes) - h.nodes[n].rank
  {
    SomethingRefers(h, n);
    if Rooted(h, n) {
      assert IsPath(h, [n]);
    } else {
      var m: nat :| RefersTo(h, m, n);
      assert NodeInv(h, m);
      KeptIsReachable(h, m);
      var path :| IsPath(h, path) && path[|path| - 1] == m;
      PathGoesOn(h, path, n);
    }
  }

  lemma PathGoesOn<K, V>(h: Heap<K, V>, path: seq<nat>, n: nat)
    requires IsPath(h, path) && RefersTo(h, path[|path| - 1], n)
    ensures Reachable(h, n)
  {
    assert IsPath(h, path + [n]);
  }

  /** Once every retired node has been deleted, exactly the nodes that some bucket array still leads to are left, and each has
      as many counts as there are slots and surviving nodes that refer to it: nothing leaks, and nothing in use is deleted. */
  lemma SurvivorsAreTheReachable<K, V>(h: Heap<K, V>, n: nat)
    requires Inv(h) && Quiet(h) && n < |h.nodes|
    ensures !h.nodes[n].deleted <==> Reachable(h, n)
    ensures h.nodes[n].refs == InDegree(h, n)
  {
    assert NodeInv(h, n);
    if !h.nodes[n].deleted { KeptIsReachable(h, n); }
    if Reachable(h, n) {
      var path :| IsPath(h, path) && path[|path| - 1] == n;
      ReachableIsNotDeleted(h, path);
    }
  }
}
