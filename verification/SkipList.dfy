/** The skip list of src/container/skiplist.h and skiplist-inl.h over integers. A node has a data value and one pointer for each
    layer below its height; the list's head node is as high as the list. Heights of new nodes are arbitrary. */
module SkipList {
  import opened Links

  datatype Node = Node(data: int, skips: seq<Ptr>, freed: bool)

  function Height(nodes: seq<Node>, n: nat): nat
    requires n < |nodes|
  {
    |nodes[n].skips|
  }

  predicate InHeap(nodes: seq<Node>, base: seq<nat>) { forall i | 0 <= i < |base| :: base[i] < |nodes| }

  // ---------- Layers ----------

  /** The first index from `c` on of a node that reaches above layer `l`; the length if there is none. */
  function FirstHigh(nodes: seq<Node>, base: seq<nat>, c: nat, l: nat): (j: nat)
    requires InHeap(nodes, base) && c <= |base|
    ensures c <= j <= |base|
    ensures forall k | c <= k < j :: Height(nodes, base[k]) <= l
    ensures j < |base| ==> Height(nodes, base[j]) > l
    decreases |base| - c
  {
    if c == |base| || Height(nodes, base[c]) > l then c else FirstHigh(nodes, base, c + 1, l)
  }

  lemma FirstHighIs(nodes: seq<Node>, base: seq<nat>, c: nat, l: nat, j: nat)
    requires InHeap(nodes, base) && c <= j <= |base|
    requires forall k | c <= k < j :: Height(nodes, base[k]) <= l
    requires j < |base| ==> Height(nodes, base[j]) > l
    ensures FirstHigh(nodes, base, c, l) == j
  {
  }

  /** The node at position `c`: the head at 0, and after it the nodes of layer 0 in order. */
  function NodeAt(head: nat, base: seq<nat>, c: nat): nat
    requires c <= |base|
  {
    if c == 0 then head else base[c - 1]
  }

  /** On layer `l` every node of that layer leads to the next one. */
  ghost predicate LayerOk(nodes: seq<Node>, head: nat, base: seq<nat>, l: nat)
    requires InHeap(nodes, base) && head < |nodes|
  {
    forall c | 0 <= c <= |base| :: LinkOk(nodes, head, base, l, c)
  }

  ghost predicate LinkOk(nodes: seq<Node>, head: nat, base: seq<nat>, l: nat, c: nat)
    requires InHeap(nodes, base) && head < |nodes| && c <= |base|
  {
    var n := NodeAt(head, base, c);
    Height(nodes, n) > l ==> nodes[n].skips[l] == From(base, FirstHigh(nodes, base, c, l))
  }

  /** Layer 0 has these nodes, each once, none freed, none higher than the head. */
  ghost predicate Shape(nodes: seq<Node>, head: nat, base: seq<nat>) {
    && InHeap(nodes, base) && head < |nodes| && !nodes[head].freed && head !in base
    && (forall i | 0 <= i < |base| :: 1 <= Height(nodes, base[i]) <= Height(nodes, head) && !nodes[base[i]].freed)
  }

  ghost predicate Sorted(nodes: seq<Node>, base: seq<nat>)
    requires InHeap(nodes, base)
  {
    forall i, j | 0 <= i < j < |base| :: nodes[base[i]].data <= nodes[base[j]].data
  }

  ghost predicate Inv(nodes: seq<Node>, head: nat, base: seq<nat>) {
    && Shape(nodes, head, base) && Distinct(base) && Sorted(nodes, base)
    && forall l | 0 <= l < Height(nodes, head) :: LayerOk(nodes, head, base, l)
  }

  /** A node that is neither the head nor in the list has been freed, but for nodes without layers, which were never in a list. */
  ghost predicate NothingLeaks(nodes: seq<Node>, head: nat, base: seq<nat>) {
    forall n | 0 <= n < |nodes| && n != head && n !in base && Height(nodes, n) > 0 :: nodes[n].freed
  }

  // ---------- One pointer at a time ----------

  function SetSkip(nodes: seq<Node>, n: nat, l: nat, p: Ptr): seq<Node>
    requires n < |nodes| && l < Height(nodes, n)
  {
    nodes[n := nodes[n].(skips := nodes[n].skips[l := p])]
  }

  predicate SameHeights(nodes: seq<Node>, nodes': seq<Node>) {
    |nodes'| == |nodes| && forall n | 0 <= n < |nodes| :: |nodes'[n].skips| == |nodes[n].skips|
  }

  /** Layer `l` is the same in both heaps. */
  ghost predicate SameLayer(nodes: seq<Node>, nodes': seq<Node>, l: nat) {
    SameHeights(nodes, nodes') && forall n | 0 <= n < |nodes| && l < |nodes[n].skips| :: nodes'[n].skips[l] == nodes[n].skips[l]
  }

  lemma LayerKept(nodes: seq<Node>, nodes': seq<Node>, head: nat, base: seq<nat>, l: nat)
    requires InHeap(nodes, base) && head < |nodes| && LayerOk(nodes, head, base, l) && SameLayer(nodes, nodes', l)
    ensures LayerOk(nodes', head, base, l)
  {
    forall c | 0 <= c <= |base| ensures LinkOk(nodes', head, base, l, c) {
      assert LinkOk(nodes, head, base, l, c);
      FirstHighIs(nodes', base, c, l, FirstHigh(nodes, base, c, l));
    }
  }

  lemma LayersKept(nodes: seq<Node>, nodes': seq<Node>, head: nat, base: seq<nat>, lo: nat, hi: nat)
    requires InHeap(nodes, base) && head < |nodes| && forall l | lo <= l < hi :: LayerOk(nodes, head, base, l)
    requires |nodes'| == |nodes| && forall l | lo <= l < hi :: SameLayer(nodes, nodes', l)
    ensures forall l | lo <= l < hi :: LayerOk(nodes', head, base, l)
  {
    forall l | lo <= l < hi ensures LayerOk(nodes', head, base, l) { LayerKept(nodes, nodes', head, base, l); }
  }

  function InsertAt(base: seq<nat>, p: nat, n: nat): seq<nat>
    requires p <= |base|
  {
    base[..p] + [n] + base[p..]
  }

  function DeleteAt(base: seq<nat>, p: nat): seq<nat>
    requires p < |base|
  {
    base[..p] + base[p + 1..]
  }

  /** `c` is the last position up to `p` of a node that reaches above layer `l`. */
  ghost predicate LastHigh(nodes: seq<Node>, head: nat, base: seq<nat>, p: nat, l: nat, c: nat)
    requires InHeap(nodes, base) && head < |nodes| && p <= |base|
  {
    && c <= p && Height(nodes, NodeAt(head, base, c)) > l
    && forall k | c <= k < p :: Height(nodes, base[k]) <= l
  }

  /** Where node `n` goes in before index `p`, FirstHigh finds it from positions up to `p`, if it is high enough. */
  lemma FirstHighAfterInsert(nodes: seq<Node>, base: seq<nat>, p: nat, n: nat, c: nat, l: nat)
    requires InHeap(nodes, base) && p <= |base| && n < |nodes| && c <= |base| + 1
    ensures InHeap(nodes, InsertAt(base, p, n))
    ensures var j := FirstHigh(nodes, InsertAt(base, p, n), c, l);
      j == if c > p then FirstHigh(nodes, base, c - 1, l) + 1
           else if FirstHigh(nodes, base, c, l) < p then FirstHigh(nodes, base, c, l)
           else if Height(nodes, n) > l then p
           else FirstHigh(nodes, base, p, l) + 1
  {
    var base' := InsertAt(base, p, n);
    if c > p {
      FirstHighIs(nodes, base', c, l, FirstHigh(nodes, base, c - 1, l) + 1);
    } else if FirstHigh(nodes, base, c, l) < p {
      FirstHighIs(nodes, base', c, l, FirstHigh(nodes, base, c, l));
    } else if Height(nodes, n) > l {
      FirstHighIs(nodes, base', c, l, p);
    } else {
      LowInsert(nodes, base, p, n, c, l);
    }
  }

  lemma LowInsert(nodes: seq<Node>, base: seq<nat>, p: nat, n: nat, c: nat, l: nat)
    requires InHeap(nodes, base) && c <= p <= |base| && n < |nodes| && Height(nodes, n) <= l && FirstHigh(nodes, base, c, l) >= p
    ensures InHeap(nodes, InsertAt(base, p, n))
    ensures FirstHigh(nodes, InsertAt(base, p, n), c, l) == FirstHigh(nodes, base, p, l) + 1
  {
    var base' := InsertAt(base, p, n);
    var j := FirstHigh(nodes, base, p, l) + 1;
    forall k | c <= k < j ensures Height(nodes, base'[k]) <= l {
      assert base'[k] == if k < p then base[k] else if k == p then n else base[k - 1];
    }
    FirstHighIs(nodes, base', c, l, j);
  }

  /** The node at position `c` is at no other position. */
  ghost predicate OnlyAt(head: nat, base: seq<nat>, c: nat) {
    c <= |base| && forall d | 0 <= d <= |base| && d != c :: NodeAt(head, base, d) != NodeAt(head, base, c)
  }

  lemma DistinctOnlyAt(nodes: seq<Node>, head: nat, base: seq<nat>, c: nat)
    requires Shape(nodes, head, base) && Distinct(base) && c <= |base|
    ensures OnlyAt(head, base, c)
  {
    forall d | 0 <= d <= |base| && d != c ensures NodeAt(head, base, d) != NodeAt(head, base, c) {
      if 0 < d < c { assert Differ(base, d - 1, c - 1); } else if 0 < c < d { assert Differ(base, c - 1, d - 1); }
    }
  }

  /** Linking the new node `n` on layer `l`: it takes over the pointer of the node before it, which then leads to `n`. */
  lemma LinkLayer(nodes: seq<Node>, nodes': seq<Node>, head: nat, base: seq<nat>, p: nat, n: nat, l: nat, c: nat)
    requires Shape(nodes, head, base) && p <= |base| && n < |nodes| && n !in base && n != head && l < Height(nodes, n)
    requires LastHigh(nodes, head, base, p, l, c) && OnlyAt(head, base, c) && LayerOk(nodes, head, base, l)
    requires var prev := NodeAt(head, base, c); nodes' == SetSkip(SetSkip(nodes, n, l, nodes[prev].skips[l]), prev, l, At(n))
    ensures InHeap(nodes', InsertAt(base, p, n)) && LayerOk(nodes', head, InsertAt(base, p, n), l)
  {
    var base' := InsertAt(base, p, n);
    forall d | 0 <= d <= |base'| ensures LinkOk(nodes', head, base', l, d) {
      if d == p + 1 {
        assert LinkOk(nodes, head, base, l, c);
        LinkNew(nodes, nodes', head, base, p, n, l, c);
      } else {
        assert LinkOk(nodes, head, base, l, if d <= p then d else d - 1);
        LinkOld(nodes, nodes', head, base, p, n, l, c, d);
      }
    }
  }

  lemma LinkNew(nodes: seq<Node>, nodes': seq<Node>, head: nat, base: seq<nat>, p: nat, n: nat, l: nat, c: nat)
    requires InHeap(nodes, base) && head < |nodes| && p <= |base| && n < |nodes| && l < Height(nodes, n)
    requires LastHigh(nodes, head, base, p, l, c) && LinkOk(nodes, head, base, l, c) && NodeAt(head, base, c) != n
    requires var prev := NodeAt(head, base, c); nodes' == SetSkip(SetSkip(nodes, n, l, nodes[prev].skips[l]), prev, l, At(n))
    ensures InHeap(nodes', InsertAt(base, p, n)) && LinkOk(nodes', head, InsertAt(base, p, n), l, p + 1)
  {
    HighAfterLink(nodes, nodes', base, p, n, l, NodeAt(head, base, c), p + 1);
    FirstHighIs(nodes, base, c, l, FirstHigh(nodes, base, p, l));
  }

  lemma LinkOld(nodes: seq<Node>, nodes': seq<Node>, head: nat, base: seq<nat>, p: nat, n: nat, l: nat, c: nat, d: nat)
    requires InHeap(nodes, base) && head < |nodes| && p <= |base| && n < |nodes| && l < Height(nodes, n) && n != head && n !in base
    requires LastHigh(nodes, head, base, p, l, c) && OnlyAt(head, base, c) && d <= |base| + 1 && d != p + 1
    requires LinkOk(nodes, head, base, l, if d <= p then d else d - 1)
    requires var prev := NodeAt(head, base, c); nodes' == SetSkip(SetSkip(nodes, n, l, nodes[prev].skips[l]), prev, l, At(n))
    ensures InHeap(nodes', InsertAt(base, p, n)) && LinkOk(nodes', head, InsertAt(base, p, n), l, d)
  {
    HighAfterLink(nodes, nodes', base, p, n, l, NodeAt(head, base, c), d);
    assert NodeAt(head, InsertAt(base, p, n), d) == NodeAt(head, base, if d <= p then d else d - 1);
  }

  lemma HighAfterLink(nodes: seq<Node>, nodes': seq<Node>, base: seq<nat>, p: nat, n: nat, l: nat, prev: nat, d: nat)
    requires InHeap(nodes, base) && p <= |base| && n < |nodes| && l < Height(nodes, n) && d <= |base| + 1
    requires prev < |nodes| && l < Height(nodes, prev)
    requires nodes' == SetSkip(SetSkip(nodes, n, l, nodes[prev].skips[l]), prev, l, At(n))
    ensures InHeap(nodes', InsertAt(base, p, n))
    ensures FirstHigh(nodes', InsertAt(base, p, n), d, l) ==
      if d > p then FirstHigh(nodes, base, d - 1, l) + 1
      else if FirstHigh(nodes, base, d, l) < p then FirstHigh(nodes, base, d, l)
      else p
  {
    FirstHighAfterInsert(nodes, base, p, n, d, l);
    SameHeightsSameHigh(nodes, nodes', InsertAt(base, p, n), d, l);
  }

  lemma SameHeightsSameHigh(nodes: seq<Node>, nodes': seq<Node>, base: seq<nat>, d: nat, l: nat)
    requires SameHeights(nodes, nodes') && InHeap(nodes, base) && d <= |base|
    ensures FirstHigh(nodes', base, d, l) == FirstHigh(nodes, base, d, l)
  {
    FirstHighIs(nodes', base, d, l, FirstHigh(nodes, base, d, l));
  }

  /** A layer that the new node does not reach stays as it is. */
  lemma SkipLayer(nodes: seq<Node>, head: nat, base: seq<nat>, p: nat, n: nat, l: nat)
    requires Shape(nodes, head, base) && p <= |base| && n < |nodes| && Height(nodes, n) <= l && LayerOk(nodes, head, base, l)
    ensures InHeap(nodes, InsertAt(base, p, n)) && LayerOk(nodes, head, InsertAt(base, p, n), l)
  {
    var base' := InsertAt(base, p, n);
    assert InHeap(nodes, base');
    forall d | 0 <= d <= |base'| ensures LinkOk(nodes, head, base', l, d) {
      FirstHighAfterInsert(nodes, base, p, n, d, l);
      if d <= p {
        assert LinkOk(nodes, head, base, l, d);
        if FirstHigh(nodes, base, d, l) >= p { FirstHighIs(nodes, base, d, l, FirstHigh(nodes, base, p, l)); }
      } else if d > p + 1 {
        assert LinkOk(nodes, head, base, l, d - 1);
        assert NodeAt(head, base', d) == base[d - 2];
      }
    }
  }

  lemma FirstHighAfterDelete(nodes: seq<Node>, base: seq<nat>, p: nat, c: nat, l: nat)
    requires InHeap(nodes, base) && p < |base| && c < |base|
    ensures InHeap(nodes, DeleteAt(base, p))
    ensures var j := FirstHigh(nodes, DeleteAt(base, p), c, l);
      j == if c > p then FirstHigh(nodes, base, c + 1, l) - 1
           else if FirstHigh(nodes, base, c, l) < p then FirstHigh(nodes, base, c, l)
           else FirstHigh(nodes, base, p + 1, l) - 1
  {
    var base' := DeleteAt(base, p);
    assert InHeap(nodes, base');
    if c > p {
      FirstHighIs(nodes, base', c, l, FirstHigh(nodes, base, c + 1, l) - 1);
    } else if FirstHigh(nodes, base, c, l) < p {
      FirstHighIs(nodes, base', c, l, FirstHigh(nodes, base, c, l));
    } else {
      FirstHighIs(nodes, base', c, l, FirstHigh(nodes, base, p + 1, l) - 1);
    }
  }

  /** Unlinking node `base[p]` on a layer that it reaches: the node before it takes over its pointer. */
  lemma UnlinkLayer(nodes: seq<Node>, nodes': seq<Node>, head: nat, base: seq<nat>, p: nat, l: nat, c: nat)
    requires Shape(nodes, head, base) && p < |base| && l < Height(nodes, base[p])
    requires LastHigh(nodes, head, base, p, l, c) && OnlyAt(head, base, c) && LayerOk(nodes, head, base, l)
    requires nodes' == SetSkip(nodes, NodeAt(head, base, c), l, nodes[base[p]].skips[l])
    ensures InHeap(nodes', DeleteAt(base, p)) && LayerOk(nodes', head, DeleteAt(base, p), l)
  {
    var base' := DeleteAt(base, p);
    assert InHeap(nodes', base');
    assert LinkOk(nodes, head, base, l, p + 1);
    forall d | 0 <= d <= |base'| ensures LinkOk(nodes', head, base', l, d) {
      assert LinkOk(nodes, head, base, l, if d <= p then d else d + 1);
      UnlinkOne(nodes, nodes', head, base, p, l, c, d);
    }
  }

  lemma HighAfterUnlink(nodes: seq<Node>, nodes': seq<Node>, base: seq<nat>, p: nat, l: nat, d: nat)
    requires InHeap(nodes, base) && p < |base| && d < |base| && SameHeights(nodes, nodes')
    ensures InHeap(nodes', DeleteAt(base, p))
    ensures FirstHigh(nodes', DeleteAt(base, p), d, l) ==
      if d > p then FirstHigh(nodes, base, d + 1, l) - 1
      else if FirstHigh(nodes, base, d, l) < p then FirstHigh(nodes, base, d, l)
      else FirstHigh(nodes, base, p + 1, l) - 1
  {
    FirstHighAfterDelete(nodes, base, p, d, l);
    SameHeightsSameHigh(nodes, nodes', DeleteAt(base, p), d, l);
  }

  lemma UnlinkOne(nodes: seq<Node>, nodes': seq<Node>, head: nat, base: seq<nat>, p: nat, l: nat, c: nat, d: nat)
    requires InHeap(nodes, base) && head < |nodes| && p < |base| && l < Height(nodes, base[p]) && d < |base|
    requires LastHigh(nodes, head, base, p, l, c) && OnlyAt(head, base, c)
    requires LinkOk(nodes, head, base, l, p + 1) && LinkOk(nodes, head, base, l, if d <= p then d else d + 1)
    requires nodes' == SetSkip(nodes, NodeAt(head, base, c), l, nodes[base[p]].skips[l])
    ensures InHeap(nodes', DeleteAt(base, p)) && LinkOk(nodes', head, DeleteAt(base, p), l, d)
  {
    if d <= p { UnlinkBefore(nodes, nodes', head, base, p, l, c, d); } else { UnlinkBehind(nodes, nodes', head, base, p, l, c, d); }
  }

  lemma UnlinkBefore(nodes: seq<Node>, nodes': seq<Node>, head: nat, base: seq<nat>, p: nat, l: nat, c: nat, d: nat)
    requires InHeap(nodes, base) && head < |nodes| && p < |base| && l < Height(nodes, base[p]) && d <= p
    requires LastHigh(nodes, head, base, p, l, c) && OnlyAt(head, base, c)
    requires LinkOk(nodes, head, base, l, p + 1) && LinkOk(nodes, head, base, l, d)
    requires nodes' == SetSkip(nodes, NodeAt(head, base, c), l, nodes[base[p]].skips[l])
    ensures InHeap(nodes', DeleteAt(base, p)) && LinkOk(nodes', head, DeleteAt(base, p), l, d)
  {
    HighAfterUnlink(nodes, nodes', base, p, l, d);
    assert NodeAt(head, DeleteAt(base, p), d) == NodeAt(head, base, d);
  }

  lemma UnlinkBehind(nodes: seq<Node>, nodes': seq<Node>, head: nat, base: seq<nat>, p: nat, l: nat, c: nat, d: nat)
    requires InHeap(nodes, base) && head < |nodes| && c <= p < |base| && p < d < |base|
    requires l < Height(nodes, NodeAt(head, base, c)) && OnlyAt(head, base, c) && LinkOk(nodes, head, base, l, d + 1)
    requires exists q :: nodes' == SetSkip(nodes, NodeAt(head, base, c), l, q)
    ensures InHeap(nodes', DeleteAt(base, p)) && LinkOk(nodes', head, DeleteAt(base, p), l, d)
  {
    HighAfterUnlink(nodes, nodes', base, p, l, d);
    assert NodeAt(head, DeleteAt(base, p), d) == NodeAt(head, base, d + 1);
  }

  lemma SkipLayerOnDelete(nodes: seq<Node>, head: nat, base: seq<nat>, p: nat, l: nat)
    requires Shape(nodes, head, base) && p < |base| && Height(nodes, base[p]) <= l && LayerOk(nodes, head, base, l)
    ensures InHeap(nodes, DeleteAt(base, p)) && LayerOk(nodes, head, DeleteAt(base, p), l)
  {
    var base' := DeleteAt(base, p);
    assert InHeap(nodes, base');
    forall d | 0 <= d <= |base'| ensures LinkOk(nodes, head, base', l, d) {
      assert LinkOk(nodes, head, base, l, if d <= p then d else d + 1);
      SkipOneOnDelete(nodes, head, base, p, l, d);
    }
  }

  lemma SkipOneOnDelete(nodes: seq<Node>, head: nat, base: seq<nat>, p: nat, l: nat, d: nat)
    requires InHeap(nodes, base) && head < |nodes| && p < |base| && Height(nodes, base[p]) <= l && d < |base|
    requires LinkOk(nodes, head, base, l, if d <= p then d else d + 1)
    ensures InHeap(nodes, DeleteAt(base, p)) && LinkOk(nodes, head, DeleteAt(base, p), l, d)
  {
    FirstHighAfterDelete(nodes, base, p, d, l);
    assert NodeAt(head, DeleteAt(base, p), d) == NodeAt(head, base, if d <= p then d else d + 1);
    if d <= p && FirstHigh(nodes, base, d, l) >= p { FirstHighIs(nodes, base, d, l, FirstHigh(nodes, base, p + 1, l)); }
  }

  // ---------- Contents ----------

  function Values(nodes: seq<Node>, base: seq<nat>): (v: seq<int>)
    requires InHeap(nodes, base)
  {
    seq(|base|, i requires 0 <= i < |base| => nodes[base[i]].data)
  }

  ghost predicate IsSorted(v: seq<int>) { forall i, j | 0 <= i < j < |v| :: v[i] <= v[j] }

  /** How many of the values are below `x`. */
  function CountBelow(v: seq<int>, x: int): (n: nat)
    ensures n <= |v|
  {
    if v == [] then 0 else CountBelow(v[..|v| - 1], x) + (if v[|v| - 1] < x then 1 else 0)
  }

  /** In a sorted list they are the first ones. */
  lemma {:induction false} BelowComeFirst(v: seq<int>, x: int)
    requires IsSorted(v)
    ensures forall i | 0 <= i < |v| :: v[i] < x <==> i < CountBelow(v, x)
  {
    if v != [] {
      var init := v[..|v| - 1];
      BelowComeFirst(init, x);
      assert forall i | 0 <= i < |init| :: v[i] == init[i];
      assert forall i | 0 <= i < |init| :: init[i] <= v[|v| - 1];
    }
  }

  /** The sorted list with one more `x`, before any equal to it. */
  function InsertValue(v: seq<int>, x: int): seq<int> {
    var p := CountBelow(v, x);
    v[..p] + [x] + v[p..]
  }

  /** The sorted list without its first `x`, if it has one. */
  function RemoveValue(v: seq<int>, x: int): seq<int> {
    var p := CountBelow(v, x);
    if p < |v| && v[p] == x then Without(v, p) else v
  }

  function Without(v: seq<int>, p: nat): seq<int>
    requires p < |v|
  {
    v[..p] + v[p + 1..]
  }

  /** A skip list is a sorted multiset. */
  lemma InsertValueIsMultisetInsert(v: seq<int>, x: int)
    requires IsSorted(v)
    ensures IsSorted(InsertValue(v, x)) && multiset(InsertValue(v, x)) == multiset(v) + multiset{x}
  {
    var p := CountBelow(v, x);
    BelowComeFirst(v, x);
    assert v == v[..p] + v[p..];
  }

  lemma RemoveValueIsMultisetRemove(v: seq<int>, x: int)
    requires IsSorted(v)
    ensures IsSorted(RemoveValue(v, x)) && multiset(RemoveValue(v, x)) == multiset(v) - multiset{x}
  {
    FirstNotBelowTells(v, x);
    if x in v { WithoutOne(v, CountBelow(v, x)); } else { WithoutNone(v, x); }
  }

  lemma WithoutNone(v: seq<int>, x: int)
    requires x !in v
    ensures multiset(v) == multiset(v) - multiset{x}
  {
    assert x !in multiset(v);
  }

  lemma WithoutOne(v: seq<int>, p: nat)
    requires IsSorted(v) && p < |v|
    ensures IsSorted(Without(v, p)) && multiset(Without(v, p)) == multiset(v) - multiset{v[p]}
  {
    assert v == v[..p] + [v[p]] + v[p + 1..];
    var w := Without(v, p);
    forall i | 0 <= i < |w| ensures w[i] == v[if i < p then i else i + 1] {}
  }

  /** A value is in the list exactly when the first one that is not below it is equal to it. */
  lemma FirstNotBelowTells(v: seq<int>, x: int)
    requires IsSorted(v)
    ensures x in v <==> CountBelow(v, x) < |v| && v[CountBelow(v, x)] == x
  {
    BelowComeFirst(v, x);
    if x in v {
      var i :| 0 <= i < |v| && v[i] == x;
      assert CountBelow(v, x) <= i;
    }
  }

  // ---------- Layers as lists ----------

  /** The nodes of layer `l`, in order. */
  function Layer(nodes: seq<Node>, base: seq<nat>, l: nat): seq<nat>
    requires InHeap(nodes, base)
  {
    if base == [] then []
    else (if Height(nodes, base[0]) > l then [base[0]] else []) + Layer(nodes, base[1..], l)
  }

  /** What one sees going from `p` along the pointers of layer `l`. */
  ghost predicate Follows(nodes: seq<Node>, p: Ptr, l: nat, layer: seq<nat>)
    decreases |layer|
  {
    if layer == [] then p == Null
    else p == At(layer[0]) && layer[0] < |nodes| && l < |nodes[layer[0]].skips| && Follows(nodes, nodes[layer[0]].skips[l], l, layer[1..])
  }

  /** Going along layer `l` from position `c` one sees exactly the nodes that reach above it, and then null. */
  lemma {:induction false} LayerIsFollowed(nodes: seq<Node>, head: nat, base: seq<nat>, l: nat, c: nat)
    requires Inv(nodes, head, base) && l < Height(nodes, head) && c <= |base|
    ensures InHeap(nodes, base[c..])
    ensures Follows(nodes, From(base, FirstHigh(nodes, base, c, l)), l, Layer(nodes, base[c..], l))
    decreases |base| - c
  {
    if c < |base| {
      assert base[c..][1..] == base[c + 1..];
      LayerIsFollowed(nodes, head, base, l, c + 1);
      if Height(nodes, base[c]) > l {
        assert LayerOk(nodes, head, base, l);
        assert LinkOk(nodes, head, base, l, c + 1);
        assert Layer(nodes, base[c..], l)[1..] == Layer(nodes, base[c + 1..], l);
      } else {
        assert Layer(nodes, base[c..], l) == Layer(nodes, base[c + 1..], l);
      }
    }
  }

  /** `a` with some elements left out. */
  ghost predicate Subsequence(b: seq<nat>, a: seq<nat>) {
    if b == [] then true
    else a != [] && (if a[0] == b[0] then Subsequence(b[1..], a[1..]) else Subsequence(b, a[1..]))
  }

  lemma {:induction false} HigherLayerIsSubsequence(nodes: seq<Node>, base: seq<nat>, l: nat)
    requires InHeap(nodes, base) && Distinct(base)
    ensures Subsequence(Layer(nodes, base, l + 1), Layer(nodes, base, l))
  {
    if base != [] {
      var rest := base[1..];
      forall i, j | 0 <= i < j < |rest| ensures Differ(rest, i, j) { assert Differ(base, i + 1, j + 1); }
      HigherLayerIsSubsequence(nodes, rest, l);
      LayerHas(nodes, rest, l + 1);
      if Height(nodes, base[0]) > l + 1 {
        assert Layer(nodes, base, l)[1..] == Layer(nodes, rest, l) && Layer(nodes, base, l + 1)[1..] == Layer(nodes, rest, l + 1);
      } else if Height(nodes, base[0]) > l {
        assert Layer(nodes, base, l)[1..] == Layer(nodes, rest, l);
        var b := Layer(nodes, rest, l + 1);
        assert Layer(nodes, base, l + 1) == b;
        if b != [] {
          assert b[0] in rest;
          var k :| 0 <= k < |rest| && rest[k] == b[0];
          assert base[k + 1] == b[0] && Differ(base, 0, k + 1);
        }
      } else {
        assert Layer(nodes, base, l) == Layer(nodes, rest, l) && Layer(nodes, base, l + 1) == Layer(nodes, rest, l + 1);
      }
    }
  }

  lemma {:induction false} LayerHas(nodes: seq<Node>, base: seq<nat>, l: nat)
    requires InHeap(nodes, base)
    ensures forall n | n in Layer(nodes, base, l) :: n in base
  {
    if base != [] { LayerHas(nodes, base[1..], l); }
  }

  lemma {:induction false} LayerIsSorted(nodes: seq<Node>, base: seq<nat>, l: nat)
    requires InHeap(nodes, base) && Sorted(nodes, base)
    ensures InHeap(nodes, Layer(nodes, base, l)) && Sorted(nodes, Layer(nodes, base, l))
  {
    if base != [] {
      var tail := Layer(nodes, base[1..], l);
      RestIsSorted(nodes, base);
      LayerIsSorted(nodes, base[1..], l);
      LayerHas(nodes, base[1..], l);
      forall n | n in tail ensures nodes[base[0]].data <= nodes[n].data { FirstIsLeast(nodes, base, n); }
      PrependSorted(nodes, base[0], tail);
      assert [] + tail == tail;
    }
  }

  lemma RestIsSorted(nodes: seq<Node>, base: seq<nat>)
    requires InHeap(nodes, base) && Sorted(nodes, base) && base != []
    ensures InHeap(nodes, base[1..]) && Sorted(nodes, base[1..])
  {
  }

  lemma PrependSorted(nodes: seq<Node>, n: nat, tail: seq<nat>)
    requires n < |nodes| && InHeap(nodes, tail) && Sorted(nodes, tail)
    requires forall m | m in tail :: nodes[n].data <= nodes[m].data
    ensures InHeap(nodes, [n] + tail) && Sorted(nodes, [n] + tail)
  {
    var all := [n] + tail;
    forall i, j | 0 <= i < j < |all| ensures nodes[all[i]].data <= nodes[all[j]].data {
      assert all[j] == tail[j - 1] && tail[j - 1] in tail;
    }
  }

  lemma FirstIsLeast(nodes: seq<Node>, base: seq<nat>, n: nat)
    requires InHeap(nodes, base) && Sorted(nodes, base) && base != [] && n in base[1..]
    ensures n < |nodes| && nodes[base[0]].data <= nodes[n].data
  {
    var k :| 0 <= k < |base[1..]| && base[1..][k] == n;
    assert base[k + 1] == n;
  }

  /** Every layer of a valid list: what its pointers lead through from the head, in order of data, and part of the layer below. */
  lemma LayersAreLists(nodes: seq<Node>, head: nat, base: seq<nat>, l: nat)
    requires Inv(nodes, head, base) && l < Height(nodes, head)
    ensures Follows(nodes, nodes[head].skips[l], l, Layer(nodes, base, l))
    ensures InHeap(nodes, Layer(nodes, base, l)) && Sorted(nodes, Layer(nodes, base, l))
    ensures Subsequence(Layer(nodes, base, l + 1), Layer(nodes, base, l))
    ensures l == 0 ==> Layer(nodes, base, l) == base
  {
    assert LayerOk(nodes, head, base, l);
    assert LinkOk(nodes, head, base, l, 0);
    assert base[0..] == base;
    LayerIsFollowed(nodes, head, base, l, 0);
    LayerIsSorted(nodes, base, l);
    HigherLayerIsSubsequence(nodes, base, l);
    if l == 0 { BottomLayerIsAll(nodes, base); }
  }

  lemma {:induction false} BottomLayerIsAll(nodes: seq<Node>, base: seq<nat>)
    requires InHeap(nodes, base) && forall i | 0 <= i < |base| :: Height(nodes, base[i]) >= 1
    ensures Layer(nodes, base, 0) == base
  {
    if base != [] { BottomLayerIsAll(nodes, base[1..]); }
  }

  // ---------- Insert and remove, layer by layer ----------

  /** Only pointers differ. */
  ghost predicate SameItems(nodes: seq<Node>, nodes': seq<Node>) {
    SameHeights(nodes, nodes') && forall n | 0 <= n < |nodes| :: nodes'[n].data == nodes[n].data && nodes'[n].freed == nodes[n].freed
  }

  /** `prev` is the last node before index `p` that reaches above layer `l`, or the head. */
  ghost predicate IsPrev(nodes: seq<Node>, head: nat, base: seq<nat>, p: nat, l: nat, prev: nat)
    requires InHeap(nodes, base) && head < |nodes| && p <= |base|
  {
    exists c: nat :: LastHigh(nodes, head, base, p, l, c) && prev == NodeAt(head, base, c)
  }

  /** The search has found, for every layer below `k`, ... */
  ghost predicate ArePrevs(nodes: seq<Node>, head: nat, base: seq<nat>, p: nat, k: nat, prevs: seq<nat>)
    requires InHeap(nodes, base) && head < |nodes| && p <= |base|
  {
    k <= |prevs| && forall l | 0 <= l < k :: IsPrev(nodes, head, base, p, l, prevs[l])
  }

  lemma OneMorePrev(nodes: seq<Node>, head: nat, base: seq<nat>, p: nat, i: nat, k: nat, prevs: seq<nat>, cur: nat,
                    prevs': seq<nat>)
    requires InHeap(nodes, base) && head < |nodes| && p <= |base| && i < k == |prevs| && prevs' == prevs[i := cur] && IsPrev(nodes, head, base, p, i, cur)
    requires forall l | i < l < k :: IsPrev(nodes, head, base, p, l, prevs[l])
    ensures forall l | i <= l < k :: IsPrev(nodes, head, base, p, l, prevs'[l])
  {
  }

  lemma PrevsKept(nodes: seq<Node>, nodes': seq<Node>, head: nat, base: seq<nat>, p: nat, l: nat, prev: nat)
    requires InHeap(nodes, base) && head < |nodes| && p <= |base| && IsPrev(nodes, head, base, p, l, prev) && SameHeights(nodes, nodes')
    ensures IsPrev(nodes', head, base, p, l, prev)
  {
    var c: nat :| LastHigh(nodes, head, base, p, l, c) && prev == NodeAt(head, base, c);
    assert LastHigh(nodes', head, base, p, l, c);
  }

  /** Node `n` has been linked in before index `p` on the layers from `k` on. */
  ghost predicate Linking(nodes: seq<Node>, head: nat, base: seq<nat>, p: nat, n: nat, k: nat) {
    && Shape(nodes, head, base) && Distinct(base) && p <= |base|
    && n < |nodes| && n !in base && n != head && 1 <= Height(nodes, n) <= Height(nodes, head)
    && InHeap(nodes, InsertAt(base, p, n))
    && (forall l | 0 <= l < k :: LayerOk(nodes, head, base, l))
    && (forall l | k <= l < Height(nodes, head) :: LayerOk(nodes, head, InsertAt(base, p, n), l))
  }

  lemma StartLinking(nodes: seq<Node>, head: nat, base: seq<nat>, p: nat, n: nat)
    requires Inv(nodes, head, base) && p <= |base|
    requires n < |nodes| && n !in base && n != head && 1 <= Height(nodes, n) <= Height(nodes, head)
    ensures Linking(nodes, head, base, p, n, Height(nodes, n))
  {
    assert InHeap(nodes, InsertAt(base, p, n));
    forall l | Height(nodes, n) <= l < Height(nodes, head) ensures LayerOk(nodes, head, InsertAt(base, p, n), l) {
      assert LayerOk(nodes, head, base, l);
      SkipLayer(nodes, head, base, p, n, l);
    }
  }

  lemma LinkStep(nodes: seq<Node>, head: nat, base: seq<nat>, p: nat, n: nat, k: nat, prev: nat)
    requires Linking(nodes, head, base, p, n, k + 1) && k < Height(nodes, n) && IsPrev(nodes, head, base, p, k, prev)
    ensures prev < |nodes| && k < Height(nodes, prev)
    ensures Linking(SetSkip(SetSkip(nodes, n, k, nodes[prev].skips[k]), prev, k, At(n)), head, base, p, n, k)
  {
    var c: nat :| LastHigh(nodes, head, base, p, k, c) && prev == NodeAt(head, base, c);
    var nodes' := SetSkip(SetSkip(nodes, n, k, nodes[prev].skips[k]), prev, k, At(n));
    DistinctOnlyAt(nodes, head, base, c);
    assert LayerOk(nodes, head, base, k);
    LinkLayer(nodes, nodes', head, base, p, n, k, c);
    assert forall l | 0 <= l < Height(nodes, head) && l != k :: SameLayer(nodes, nodes', l);
    LayersKept(nodes, nodes', head, base, 0, k);
    LayersKept(nodes, nodes', head, InsertAt(base, p, n), k + 1, Height(nodes, head));
  }

  lemma FinishLinking(nodes0: seq<Node>, nodes: seq<Node>, head: nat, base: seq<nat>, n: nat, x: int)
    requires Inv(nodes0, head, base) && SameItems(nodes0, nodes) && n < |nodes| && nodes[n].data == x && !nodes[n].freed
    requires var p := CountBelow(Values(nodes0, base), x); Linking(nodes, head, base, p, n, 0)
    ensures var base' := InsertAt(base, CountBelow(Values(nodes0, base), x), n);
      Inv(nodes, head, base') && Values(nodes, base') == InsertValue(Values(nodes0, base), x)
  {
    var p := CountBelow(Values(nodes0, base), x);
    InsertValues(nodes0, nodes, base, p, n, x);
    InsertValueIsMultisetInsert(Values(nodes0, base), x);
    SortedByValues(nodes, InsertAt(base, p, n));
    InsertDistinct(base, p, n);
  }

  lemma InsertValues(nodes: seq<Node>, nodes': seq<Node>, base: seq<nat>, p: nat, n: nat, x: int)
    requires InHeap(nodes, base) && p <= |base| && |nodes'| == |nodes| && n < |nodes| && nodes'[n].data == x
    requires forall n | 0 <= n < |nodes| :: nodes'[n].data == nodes[n].data
    ensures InHeap(nodes', InsertAt(base, p, n))
    ensures Values(nodes', InsertAt(base, p, n)) == Values(nodes, base)[..p] + [x] + Values(nodes, base)[p..]
  {
    var base' := InsertAt(base, p, n);
    forall i | 0 <= i < |base'| ensures base'[i] == if i < p then base[i] else if i == p then n else base[i - 1] {}
  }

  lemma SortedByValues(nodes: seq<Node>, base: seq<nat>)
    requires InHeap(nodes, base) && IsSorted(Values(nodes, base))
    ensures Sorted(nodes, base)
  {
    forall i, j | 0 <= i < j < |base| ensures nodes[base[i]].data <= nodes[base[j]].data {
      assert Values(nodes, base)[i] <= Values(nodes, base)[j];
    }
  }

  lemma InsertDistinct(base: seq<nat>, p: nat, n: nat)
    requires Distinct(base) && n !in base && p <= |base|
    ensures Distinct(InsertAt(base, p, n))
  {
    var base' := InsertAt(base, p, n);
    forall i, j | 0 <= i < j < |base'| ensures Differ(base', i, j) {
      if i != p && j != p { assert Differ(base, if i < p then i else i - 1, if j < p then j else j - 1); }
    }
  }

  /** Node `base[p]` has been unlinked on the layers from `k` on. */
  ghost predicate Unlinking(nodes: seq<Node>, head: nat, base: seq<nat>, p: nat, k: nat) {
    && Shape(nodes, head, base) && Distinct(base) && p < |base|
    && InHeap(nodes, DeleteAt(base, p))
    && (forall l | 0 <= l < k :: LayerOk(nodes, head, base, l))
    && (forall l | k <= l < Height(nodes, head) :: LayerOk(nodes, head, DeleteAt(base, p), l))
  }

  lemma StartUnlinking(nodes: seq<Node>, head: nat, base: seq<nat>, p: nat)
    requires Inv(nodes, head, base) && p < |base|
    ensures Unlinking(nodes, head, base, p, Height(nodes, base[p]))
  {
    assert InHeap(nodes, DeleteAt(base, p));
    forall l | Height(nodes, base[p]) <= l < Height(nodes, head) ensures LayerOk(nodes, head, DeleteAt(base, p), l) {
      assert LayerOk(nodes, head, base, l);
      SkipLayerOnDelete(nodes, head, base, p, l);
    }
  }

  lemma UnlinkStep(nodes: seq<Node>, head: nat, base: seq<nat>, p: nat, k: nat, prev: nat)
    requires Unlinking(nodes, head, base, p, k + 1) && k < Height(nodes, base[p]) && IsPrev(nodes, head, base, p, k, prev)
    ensures prev < |nodes| && k < Height(nodes, prev)
    ensures Unlinking(SetSkip(nodes, prev, k, nodes[base[p]].skips[k]), head, base, p, k)
  {
    var c: nat :| LastHigh(nodes, head, base, p, k, c) && prev == NodeAt(head, base, c);
    var nodes' := SetSkip(nodes, prev, k, nodes[base[p]].skips[k]);
    DistinctOnlyAt(nodes, head, base, c);
    assert LayerOk(nodes, head, base, k);
    UnlinkLayer(nodes, nodes', head, base, p, k, c);
    assert forall l | 0 <= l < Height(nodes, head) && l != k :: SameLayer(nodes, nodes', l);
    LayersKept(nodes, nodes', head, base, 0, k);
    LayersKept(nodes, nodes', head, DeleteAt(base, p), k + 1, Height(nodes, head));
  }

  lemma RelinkingLeaksNothing(nodes: seq<Node>, nodes': seq<Node>, head: nat, base: seq<nat>)
    requires NothingLeaks(nodes, head, base) && SameItems(nodes, nodes')
    ensures NothingLeaks(nodes', head, base)
  {
  }

  lemma DeletingLeaksNothing(nodes: seq<Node>, head: nat, base: seq<nat>, p: nat)
    requires NothingLeaks(nodes, head, base) && p < |base| && base[p] < |nodes|
    ensures NothingLeaks(nodes[base[p] := nodes[base[p]].(freed := true)], head, DeleteAt(base, p))
  {
    var base' := DeleteAt(base, p);
    forall m | m in base && m != base[p] ensures m in base' {
      var i :| 0 <= i < |base| && base[i] == m;
      assert base'[if i < p then i else i - 1] == m;
    }
  }

  lemma InsertingLeaksNothing(nodes: seq<Node>, nodes': seq<Node>, head: nat, base: seq<nat>, p: nat)
    requires NothingLeaks(nodes, head, base) && p <= |base| && |nodes'| == |nodes| + 1
    requires forall n | 0 <= n < |nodes| :: |nodes'[n].skips| == |nodes[n].skips| && nodes'[n].freed == nodes[n].freed
    ensures NothingLeaks(nodes', head, InsertAt(base, p, |nodes|))
  {
    var base' := InsertAt(base, p, |nodes|);
    assert base'[p] == |nodes|;
    forall m | m in base ensures m in base' {
      var i :| 0 <= i < |base| && base[i] == m;
      assert base'[if i < p then i else i + 1] == m;
    }
  }

  /** The node that has been unlinked everywhere is freed; nothing leads to it. */
  lemma FinishUnlinking(nodes0: seq<Node>, nodes: seq<Node>, head: nat, base: seq<nat>, x: int)
    requires Inv(nodes0, head, base) && SameItems(nodes0, nodes)
    requires var v, p := Values(nodes0, base), CountBelow(Values(nodes0, base), x);
      p < |base| && v[p] == x && Unlinking(nodes, head, base, p, 0)
    ensures var p := CountBelow(Values(nodes0, base), x); var n := base[p];
      var nodes' := nodes[n := nodes[n].(freed := true)]; var base' := DeleteAt(base, p);
      Inv(nodes', head, base') && Values(nodes', base') == RemoveValue(Values(nodes0, base), x)
  {
    var p := CountBelow(Values(nodes0, base), x);
    var n, base' := base[p], DeleteAt(base, p);
    var nodes' := nodes[n := nodes[n].(freed := true)];
    DeleteShape(nodes, nodes', head, base, p);
    DeleteValues(nodes0, nodes', base, p);
    DeleteSorted(nodes0, nodes', base, p);
    forall l | 0 <= l < Height(nodes', head) ensures LayerOk(nodes', head, base', l) {
      assert LayerOk(nodes, head, base', l) && SameLayer(nodes, nodes', l);
      LayerKept(nodes, nodes', head, base', l);
    }
  }

  lemma DeleteShape(nodes: seq<Node>, nodes': seq<Node>, head: nat, base: seq<nat>, p: nat)
    requires Shape(nodes, head, base) && Distinct(base) && p < |base|
    requires nodes' == nodes[base[p] := nodes[base[p]].(freed := true)]
    ensures Shape(nodes', head, DeleteAt(base, p))
  {
    var base' := DeleteAt(base, p);
    DistinctOnlyAt(nodes, head, base, p + 1);
    forall i | 0 <= i < |base'| ensures base'[i] == base[if i < p then i else i + 1] && base'[i] != base[p] {
      assert base'[i] == NodeAt(head, base, if i < p then i + 1 else i + 2);
    }
  }

  lemma DeleteValues(nodes: seq<Node>, nodes': seq<Node>, base: seq<nat>, p: nat)
    requires InHeap(nodes, base) && p < |base| && |nodes'| == |nodes|
    requires forall n | 0 <= n < |nodes| :: nodes'[n].data == nodes[n].data
    ensures InHeap(nodes', DeleteAt(base, p))
    ensures Values(nodes', DeleteAt(base, p)) == Values(nodes, base)[..p] + Values(nodes, base)[p + 1..]
  {
    var base' := DeleteAt(base, p);
    forall i | 0 <= i < |base'| ensures base'[i] == base[if i < p then i else i + 1] {}
  }

  lemma DeleteSorted(nodes: seq<Node>, nodes': seq<Node>, base: seq<nat>, p: nat)
    requires InHeap(nodes, base) && Sorted(nodes, base) && Distinct(base) && p < |base|
    requires |nodes'| == |nodes| && forall n | 0 <= n < |nodes| :: nodes'[n].data == nodes[n].data
    ensures InHeap(nodes', DeleteAt(base, p)) && Sorted(nodes', DeleteAt(base, p)) && Distinct(DeleteAt(base, p))
  {
    var base' := DeleteAt(base, p);
    forall i | 0 <= i < |base'| ensures base'[i] == base[if i < p then i else i + 1] {}
    forall i, j | 0 <= i < j < |base'| ensures Differ(base', i, j) {
      assert Differ(base, if i < p then i else i + 1, if j < p then j else j + 1);
    }
  }

  /** A new, higher head that takes over the pointers of the old one changes no layer. */
  lemma GrowKeepsLayers(nodes: seq<Node>, nodes': seq<Node>, head: nat, base: seq<nat>, height: nat)
    requires Inv(nodes, head, base) && height > Height(nodes, head) && |nodes'| == |nodes| + 1
    requires forall n | 0 <= n < |nodes| && n != head :: nodes'[n] == nodes[n]
    requires |nodes'[|nodes|].skips| == height && !nodes'[|nodes|].freed
    requires forall l | 0 <= l < height :: nodes'[|nodes|].skips[l] == if l < Height(nodes, head) then nodes[head].skips[l] else Null
    ensures Inv(nodes', |nodes|, base) && Values(nodes', base) == Values(nodes, base)
  {
    var head' := |nodes|;
    forall l | 0 <= l < height ensures LayerOk(nodes', head', base, l) {
      forall c | 0 <= c <= |base| ensures LinkOk(nodes', head', base, l, c) {
        FirstHighIs(nodes', base, c, l, FirstHigh(nodes, base, c, l));
        if l < Height(nodes, head) {
          assert LayerOk(nodes, head, base, l) && LinkOk(nodes, head, base, l, c);
        } else {
          FirstHighIs(nodes, base, c, l, |base|);
        }
      }
    }
  }

  const MAX_HEIGHT: nat := 24

  class List {
    const limits: seq<nat>   // sizeLimitTable_
    var nodes: seq<Node>
    var head: nat
    var size: nat

    ghost var base: seq<nat>
    ghost var lost: nat      // how many inserts found no layer to link their node in

    ghost predicate Valid()
      reads this
    {
      && |limits| == 64 && limits[0] == 1
      && Inv(nodes, head, base) && size == |base| + lost
    }

    ghost function Contents(): seq<int>
      requires Valid()
      reads this
    {
      Values(nodes, base)
    }

    function ListHeight(): nat
      requires head < |nodes|
      reads this
    {
      Height(nodes, head)
    }

    constructor (initHeight: nat, limits: seq<nat>)
      requires |limits| == 64 && limits[0] == 1
      ensures Valid() && Contents() == [] && size == 0 && lost == 0 && ListHeight() == initHeight && NothingLeaks(nodes, head, base)
    {
      this.limits := limits;
      nodes, head, size, base, lost := [Node(0, seq(initHeight, _ => Null), false)], 0, 0, [], 0;
      new;
      forall l | 0 <= l < initHeight ensures LayerOk(nodes, head, base, l) { assert LinkOk(nodes, head, base, l, 0); }
    }

    /** A search on layer `l` has come to `last` at position `d`, which is not beyond the nodes below `x`. */
    ghost predicate Reached(l: nat, x: int, d: nat, last: nat, next: Ptr)
      requires Valid()
      reads this
    {
      && d <= CountBelow(Contents(), x) && last == NodeAt(head, base, d) && Height(nodes, last) > l
      && next == From(base, FirstHigh(nodes, base, d, l))
    }

    /** It goes on exactly when the next node is below `x`, and then has come to that node; otherwise `last` is what it looks for. */
    lemma NextIsBelow(l: nat, x: int, d: nat, last: nat, next: Ptr)
      requires Valid() && l < ListHeight() && Reached(l, x, d, last, next)
      ensures next.At? ==> next.n < |nodes| && l < Height(nodes, next.n)
      ensures next.At? && nodes[next.n].data < x ==>
        Reached(l, x, FirstHigh(nodes, base, d, l) + 1, next.n, nodes[next.n].skips[l])
      ensures !(next.At? && nodes[next.n].data < x) ==>
        IsPrev(nodes, head, base, CountBelow(Contents(), x), l, last) && FirstHigh(nodes, base, d, l) >= CountBelow(Contents(), x)
    {
      BelowComeFirst(Contents(), x);
      assert LayerOk(nodes, head, base, l);
      var j := FirstHigh(nodes, base, d, l);
      if j < |base| {
        assert nodes[base[j]].data == Contents()[j];
        assert LinkOk(nodes, head, base, l, j + 1);
      }
      if j >= CountBelow(Contents(), x) { assert LastHigh(nodes, head, base, CountBelow(Contents(), x), l, d); }
    }

    /** One layer of a search, from `cur` to the last node of the layer whose data is less than `x`; `next` is the one behind. */
    method Advance(cur: nat, l: nat, x: int, ghost c: nat) returns (last: nat, next: Ptr, ghost d: nat)
      requires Valid() && l < ListHeight() && c <= CountBelow(Contents(), x) && cur == NodeAt(head, base, c) && Height(nodes, cur) > l
      ensures Reached(l, x, d, last, next) && FirstHigh(nodes, base, d, l) >= CountBelow(Contents(), x)
      ensures IsPrev(nodes, head, base, CountBelow(Contents(), x), l, last)
    {
      last, d := cur, c;
      assert LayerOk(nodes, head, base, l) && LinkOk(nodes, head, base, l, d);
      next := nodes[cur].skips[l];
      while next.At? && nodes[next.n].data < x
        invariant Reached(l, x, d, last, next)
        invariant next.At? ==> next.n < |nodes|
        decreases |base| - d
      {
        NextIsBelow(l, x, d, last, next);
        d := FirstHigh(nodes, base, d, l) + 1;
        last, next := next.n, nodes[next.n].skips[l];
      }
      NextIsBelow(l, x, d, last, next);
    }

    /** _search_equal_or_greater: the first node that is not less than `x`, and for each layer the last one that is. */
    method SearchWithPrevs(x: int) returns (next: Ptr, prevs: seq<nat>)
      requires Valid()
      ensures next == if ListHeight() > 0 then From(base, CountBelow(Contents(), x)) else Null
      ensures |prevs| == ListHeight()
      ensures ArePrevs(nodes, head, base, CountBelow(Contents(), x), ListHeight(), prevs)
    {
      ghost var p := CountBelow(Contents(), x);
      ghost var c := 0;
      var cur, i := head, ListHeight();
      next, prevs := Null, seq(ListHeight(), _ => 0);
      while i > 0
        invariant 0 <= i <= ListHeight() == |prevs|
        invariant forall l | i <= l < ListHeight() :: IsPrev(nodes, head, base, p, l, prevs[l])
        invariant if i == ListHeight() then cur == head && c == 0 && next == Null else
          Reached(i, x, c, cur, next) && FirstHigh(nodes, base, c, i) >= p
      {
        i := i - 1;
        cur, next, c := Advance(cur, i, x, c);
        OneMorePrev(nodes, head, base, p, i, ListHeight(), prevs, cur, prevs[i := cur]);
        prevs := prevs[i := cur];
      }
    }

    /** The same without the nodes before it. */
    method Search(x: int) returns (next: Ptr)
      requires Valid()
      ensures next == if ListHeight() > 0 then From(base, CountBelow(Contents(), x)) else Null
    {
      ghost var p := CountBelow(Contents(), x);
      ghost var c := 0;
      var cur, i := head, ListHeight();
      next := Null;
      while i > 0
        invariant 0 <= i <= ListHeight()
        invariant if i == ListHeight() then cur == head && c == 0 && next == Null else
          Reached(i, x, c, cur, next) && FirstHigh(nodes, base, c, i) >= p
      {
        i := i - 1;
        cur, next, c := Advance(cur, i, x, c);
      }
    }

    method Find(x: int) returns (found: bool)
      requires Valid()
      ensures found <==> x in Contents()
    {
      var next := Search(x);
      FirstNotBelowTells(Contents(), x);
      found := next.At? && nodes[next.n].data == x;
    }

    method GrowHeight(newHeight: nat)
      requires Valid()
      modifies this
      ensures Valid() && Contents() == old(Contents()) && base == old(base) && size == old(size) && lost == old(lost)
      ensures ListHeight() == if old(ListHeight()) >= newHeight then old(ListHeight()) else newHeight
      ensures head != old(head) ==> old(head) < |nodes| && nodes[old(head)].freed
      ensures old(NothingLeaks(nodes, head, base)) ==> NothingLeaks(nodes, head, base)
    {
      if ListHeight() >= newHeight { return; }
      var oldHead, newHead := head, |nodes|;
      nodes := nodes + [Node(0, seq(newHeight, _ => Null), false)];
      ghost var before := nodes;
      var i := 0;
      while i < Height(nodes, oldHead)
        modifies this`nodes
        invariant |nodes| == |before| && i <= Height(nodes, oldHead) && |nodes[newHead].skips| == newHeight && !nodes[newHead].freed
        invariant forall n | 0 <= n < newHead :: nodes[n] == before[n]
        invariant forall l | 0 <= l < newHeight :: nodes[newHead].skips[l] == if l < i then before[oldHead].skips[l] else Null
      {
        nodes := SetSkip(nodes, newHead, i, nodes[oldHead].skips[i]);
        i := i + 1;
      }
      nodes := nodes[oldHead := nodes[oldHead].(freed := true)];
      head := newHead;
      GrowKeepsLayers(old(nodes), nodes, oldHead, base, newHeight);
    }

    /** The new node is linked in behind the nodes that the search has found. */
    method LinkNode(n: nat, prevs: seq<nat>, ghost p: nat)
      requires p <= |base| && Linking(nodes, head, base, p, n, if n < |nodes| then Height(nodes, n) else 0) && n < |nodes|
      requires ArePrevs(nodes, head, base, p, Height(nodes, n), prevs)
      modifies this`nodes
      ensures SameItems(old(nodes), nodes) && Linking(nodes, head, base, p, n, 0)
    {
      var layer := Height(nodes, n);
      while layer > 0
        invariant SameItems(old(nodes), nodes) && 0 <= layer <= Height(nodes, n)
        invariant Linking(nodes, head, base, p, n, layer)
      {
        layer := layer - 1;
        assert IsPrev(old(nodes), head, base, p, layer, prevs[layer]);
        PrevsKept(old(nodes), nodes, head, base, p, layer, prevs[layer]);
        LinkStep(nodes, head, base, p, n, layer, prevs[layer]);
        nodes := SetSkip(nodes, n, layer, nodes[prevs[layer]].skips[layer]);
        nodes := SetSkip(nodes, prevs[layer], layer, At(n));
      }
    }

    /** The list grows by one layer when one more value exceeds the size limit of its height. */
    method GrowForOneMore()
      requires Valid()
      modifies this
      ensures Valid() && Contents() == old(Contents()) && base == old(base) && size == old(size) && lost == old(lost)
      ensures ListHeight() == old(ListHeight()) + (if old(ListHeight() < 24 && size + 1 > limits[ListHeight()]) then 1 else 0)
      ensures old(NothingLeaks(nodes, head, base)) ==> NothingLeaks(nodes, head, base)
    {
      var current := ListHeight();
      if current < MAX_HEIGHT && size + 1 > limits[current] {
        GrowHeight(current + 1);
      }
    }

    method Insert(x: int, force: bool) returns (existed: bool)
      requires Valid()
      modifies this
      ensures Valid()
      ensures existed <==> x in old(Contents())
      ensures var missed := old(ListHeight() == 0 && size == 0); lost == old(lost) + (if missed then 1 else 0)
      ensures Contents() == if (existed && !force) || lost > old(lost) then old(Contents()) else InsertValue(old(Contents()), x)
      ensures ListHeight() == old(ListHeight()) + (if old(ListHeight() < 24 && size + 1 > limits[ListHeight()]) then 1 else 0)
      ensures old(NothingLeaks(nodes, head, base)) ==> NothingLeaks(nodes, head, base)
    {
      GrowForOneMore();
      var nodeHeight := GetHeight(ListHeight());
      var next, prevs := SearchWithPrevs(x);
      FirstNotBelowTells(Contents(), x);
      existed := next.At? && nodes[next.n].data == x;
      if (existed && force) || !existed {
        if nodeHeight == 0 { AddLost(x); } else { AddNode(x, nodeHeight, prevs); }
        size := size + 1;
      }
    }

    /** SkipListRandomHeight::getHeight: any height that the list has, and 0 for a list without layers. */
    method GetHeight(maxHeight: nat) returns (height: nat)
      ensures if maxHeight == 0 then height == 0 else 1 <= height <= maxHeight
    {
      var random: nat := *;
      height := if maxHeight == 0 then 0 else 1 + random % maxHeight;
    }

    /** A new node without layers is linked in nowhere. */
    method AddLost(x: int)
      requires Inv(nodes, head, base)
      modifies this`nodes, this`lost
      ensures old(NothingLeaks(nodes, head, base)) ==> NothingLeaks(nodes, head, base)
      ensures Inv(nodes, head, base) && Values(nodes, base) == old(Values(nodes, base))
      ensures lost == old(lost) + 1 && Height(nodes, head) == old(Height(nodes, head))
    {
      nodes := nodes + [Node(x, [], false)];
      AddNodeKeepsInv(old(nodes), nodes, head, base);
      lost := lost + 1;
    }

    /** A new node of this height is linked in behind the nodes that the search has found. */
    method AddNode(x: int, nodeHeight: nat, prevs: seq<nat>)
      requires Inv(nodes, head, base) && 1 <= nodeHeight <= Height(nodes, head)
      requires ArePrevs(nodes, head, base, CountBelow(Values(nodes, base), x), Height(nodes, head), prevs)
      modifies this`nodes, this`base
      ensures old(NothingLeaks(nodes, head, base)) ==> NothingLeaks(nodes, head, base)
      ensures Inv(nodes, head, base)
      ensures Values(nodes, base) == InsertValue(old(Values(nodes, base)), x)
      ensures |base| == |old(base)| + 1 && Height(nodes, head) == old(Height(nodes, head))
    {
      ghost var p := CountBelow(Values(nodes, base), x);
      var n := |nodes|;
      nodes := nodes + [Node(x, seq(nodeHeight, _ => Null), false)];
      AddNodeKeepsInv(old(nodes), nodes, head, base);
      PrevsOfLonger(old(nodes), nodes, head, base, p, nodeHeight, prevs);
      ghost var added := nodes;
      StartLinking(nodes, head, base, p, n);
      LinkNode(n, prevs, p);
      FinishLinking(added, nodes, head, base, n, x);
      if old(NothingLeaks(nodes, head, base)) { InsertingLeaksNothing(old(nodes), nodes, head, base, p); }
      base := InsertAt(base, p, n);
    }

    method Remove(x: int) returns (removed: bool)
      requires Valid()
      modifies this
      ensures Valid() && Contents() == RemoveValue(old(Contents()), x)
      ensures removed <==> x in old(Contents())
      ensures ListHeight() == old(ListHeight()) && lost == old(lost)
      ensures old(NothingLeaks(nodes, head, base)) ==> NothingLeaks(nodes, head, base)
    {
      var next, prevs := SearchWithPrevs(x);
      FirstNotBelowTells(Contents(), x);
      if next == Null || nodes[next.n].data != x { return false; }
      var n := next.n;
      RemoveNode(n, prevs, x);
      size := size - 1;
      return true;
    }

    /** A node that the search has found is taken out and freed. */
    method RemoveNode(n: nat, prevs: seq<nat>, ghost x: int)
      requires Inv(nodes, head, base) && InHeap(nodes, base) && n < |nodes|
      requires var v, p := Values(nodes, base), CountBelow(Values(nodes, base), x);
        p < |base| && v[p] == x && n == base[p] && ArePrevs(nodes, head, base, p, Height(nodes, head), prevs)
      modifies this`nodes, this`base
      ensures Inv(nodes, head, base) && Values(nodes, base) == RemoveValue(old(Values(nodes, base)), x)
      ensures |base| == |old(base)| - 1 && Height(nodes, head) == old(Height(nodes, head))
      ensures n < |nodes| && nodes[n].freed
      ensures old(NothingLeaks(nodes, head, base)) ==> NothingLeaks(nodes, head, base)
    {
      ghost var p := CountBelow(Values(nodes, base), x);
      UnlinkNode(n, prevs, p);
      FinishUnlinking(old(nodes), nodes, head, base, x);
      if old(NothingLeaks(nodes, head, base)) {
        RelinkingLeaksNothing(old(nodes), nodes, head, base);
        DeletingLeaksNothing(nodes, head, base, p);
      }
      nodes := nodes[n := nodes[n].(freed := true)];
      base := DeleteAt(base, p);
    }

    method UnlinkNode(n: nat, prevs: seq<nat>, ghost p: nat)
      requires Inv(nodes, head, base) && p < |base| && n == base[p] && ArePrevs(nodes, head, base, p, Height(nodes, head), prevs)
      modifies this`nodes
      ensures SameItems(old(nodes), nodes) && Unlinking(nodes, head, base, p, 0)
    {
      StartUnlinking(nodes, head, base, p);
      var layer := Height(nodes, n);
      while layer > 0
        invariant SameItems(old(nodes), nodes) && 0 <= layer <= Height(nodes, n)
        invariant Unlinking(nodes, head, base, p, layer)
      {
        layer := layer - 1;
        assert IsPrev(old(nodes), head, base, p, layer, prevs[layer]);
        PrevsKept(old(nodes), nodes, head, base, p, layer, prevs[layer]);
        UnlinkStep(nodes, head, base, p, layer, prevs[layer]);
        nodes := SetSkip(nodes, prevs[layer], layer, nodes[n].skips[layer]);
      }
    }
  }

  /** A list constructed with height 0 counts its first value and does not have it. */
  method FirstInsertIsLost(x: int, limits: seq<nat>) returns (list: List)
    requires |limits| == 64 && limits[0] == 1
    ensures fresh(list) && list.Valid() && list.size == 1 && list.Contents() == []
  {
    list := new List(0, limits);
    var existed := list.Insert(x, false);
  }

  lemma AddNodeKeepsInv(nodes: seq<Node>, nodes': seq<Node>, head: nat, base: seq<nat>)
    requires Inv(nodes, head, base) && nodes <= nodes'
    ensures Inv(nodes', head, base) && Values(nodes', base) == Values(nodes, base)
  {
    forall l | 0 <= l < Height(nodes', head) ensures LayerOk(nodes', head, base, l) {
      assert LayerOk(nodes, head, base, l);
      forall c | 0 <= c <= |base| ensures LinkOk(nodes', head, base, l, c) {
        assert LinkOk(nodes, head, base, l, c);
        FirstHighIs(nodes', base, c, l, FirstHigh(nodes, base, c, l));
      }
    }
  }

  lemma PrevsOfLonger(nodes: seq<Node>, nodes': seq<Node>, head: nat, base: seq<nat>, p: nat, k: nat, prevs: seq<nat>)
    requires Inv(nodes, head, base) && nodes <= nodes' && p <= |base| && k <= Height(nodes, head)
    requires ArePrevs(nodes, head, base, p, Height(nodes, head), prevs)
    ensures ArePrevs(nodes', head, base, p, k, prevs)
  {
    forall l | 0 <= l < k ensures IsPrev(nodes', head, base, p, l, prevs[l]) {
      assert IsPrev(nodes, head, base, p, l, prevs[l]);
      var c: nat :| LastHigh(nodes, head, base, p, l, c) && prevs[l] == NodeAt(head, base, c);
      assert LastHigh(nodes', head, base, p, l, c);
    }
  }
}
