/** One segment of the hash map of hazptr/ConcurrentHashMap-detail.h, as its writers see it under the segment's lock, with the
    copying rehash, insert and find of src/concurrent/concurrent_hashmap_detail.h, which works on the same structure.

    Retired bucket arrays and retired nodes stay until a reclaimer destroys them, which may happen between any two operations. */
module HashSegment {
  import opened Bits
  import opened Links
  import opened SharedChains
  import opened Sums

  // ---------- Chains and tables ----------

  /** The nodes `c` are the chain that `p` leads to. */
  ghost predicate IsChain<K, V>(h: Heap<K, V>, p: Ptr, c: seq<nat>) {
    p == From(c, 0) && forall i | 0 <= i < |c| :: LinkAt(h, c, i)
  }

  ghost predicate LinkAt<K, V>(h: Heap<K, V>, c: seq<nat>, i: nat)
    requires i < |c|
  {
    c[i] < |h.nodes| && h.nodes[c[i]].next == From(c, i + 1)
  }

  /** Node `n` has an item of the map that belongs into bucket `b`. */
  ghost predicate HasItem<K, V>(h: Heap<K, V>, n: nat, b: nat, index: K -> nat, m: map<K, V>) {
    n < |h.nodes| && h.nodes[n].key in m && m[h.nodes[n].key] == h.nodes[n].val && index(h.nodes[n].key) == b
  }

  ghost predicate KeysDiffer<K, V>(h: Heap<K, V>, c: seq<nat>) {
    forall i, j | 0 <= i < j < |c| && c[i] < |h.nodes| && c[j] < |h.nodes| :: h.nodes[c[i]].key != h.nodes[c[j]].key
  }

  ghost predicate HasKey<K, V>(h: Heap<K, V>, c: seq<nat>, k: K) {
    exists i :: 0 <= i < |c| && c[i] < |h.nodes| && h.nodes[c[i]].key == k
  }

  ghost predicate Bucket<K, V>(h: Heap<K, V>, a: nat, index: K -> nat, m: map<K, V>, b: nat, c: seq<nat>) {
    && IsSlot(h, a, b) && IsChain(h, h.arrays[a][b], c) && KeysDiffer(h, c)
    && forall i | 0 <= i < |c| :: HasItem(h, c[i], b, index, m)
  }

  ghost predicate Finds<K, V>(h: Heap<K, V>, index: K -> nat, chains: seq<seq<nat>>, k: K) {
    index(k) < |chains| && HasKey(h, chains[index(k)], k)
  }

  /** Array `a` with these chains is the map `m`: each key once, in its bucket, with its value, and nothing else. */
  ghost predicate Table<K, V>(h: Heap<K, V>, a: nat, index: K -> nat, chains: seq<seq<nat>>, m: map<K, V>) {
    && a < |h.arrays| && |chains| == |h.arrays[a]|
    && (forall b | 0 <= b < |chains| :: Bucket(h, a, index, m, b, chains[b]))
    && forall k {:trigger Finds(h, index, chains, k)} | k in m :: Finds(h, index, chains, k)
  }

  /** Node `n` has the same item and the same next pointer in both heaps. */
  ghost predicate SameNode<K, V>(h: Heap<K, V>, h': Heap<K, V>, n: nat) {
    n < |h.nodes| <= |h'.nodes| && SameItem(h, h', n) && h'.nodes[n].next == h.nodes[n].next
  }

  ghost predicate SameItem<K, V>(h: Heap<K, V>, h': Heap<K, V>, n: nat) {
    && n < |h.nodes| && n < |h'.nodes|
    && h'.nodes[n].key == h.nodes[n].key && h'.nodes[n].val == h.nodes[n].val && h'.nodes[n].rank == h.nodes[n].rank
  }

  // ---------- The operations on chains ----------

  function RankAbove<K, V>(h: Heap<K, V>, p: Ptr): nat {
    if p.At? && p.n < |h.nodes| then h.nodes[p.n].rank + 1 else 0
  }

  /** A new node becomes the head of a chain. */
  function Push<K, V>(h: Heap<K, V>, a: nat, b: nat, key: K, val: V): Heap<K, V>
    requires IsSlot(h, a, b)
  {
    var head, n := h.arrays[a][b], |h.nodes|;
    SetSlot(SetNext(Allocate(h, key, val, RankAbove(h, head)), n, head), a, b, At(n))
  }

  /** What refers to a node of the chain of slot `b`: the node `prev` before it, or the slot. */
  function Redirect<K, V>(h: Heap<K, V>, a: nat, b: nat, prev: Ptr, q: Ptr): Heap<K, V>
    requires IsSlot(h, a, b) && (prev.At? ==> prev.n < |h.nodes|)
  {
    if prev.At? then SetNext(h, prev.n, q) else SetSlot(h, a, b, q)
  }

  /** A new node takes the place of `n`. */
  function Replace<K, V>(h: Heap<K, V>, a: nat, b: nat, prev: Ptr, n: nat, key: K, val: V): Heap<K, V>
    requires IsSlot(h, a, b) && (prev.At? ==> prev.n < |h.nodes|) && n < |h.nodes|
  {
    var cur := |h.nodes|;
    Redirect(SetNext(Allocate(h, key, val, h.nodes[n].rank), cur, h.nodes[n].next), a, b, prev, At(cur))
  }

  /** Node `n` is taken out of its chain. */
  function Unlink<K, V>(h: Heap<K, V>, a: nat, b: nat, prev: Ptr, n: nat): Heap<K, V>
    requires IsSlot(h, a, b) && (prev.At? ==> prev.n < |h.nodes|) && n < |h.nodes|
  {
    Redirect(h, a, b, prev, h.nodes[n].next)
  }

  // ---------- They keep the references counted ----------

  lemma PushKeepsInv<K, V>(h: Heap<K, V>, a: nat, b: nat, key: K, val: V)
    requires Inv(h) && IsSlot(h, a, b)
    ensures Inv(Push(h, a, b, key, val))
  {
    var head, n := h.arrays[a][b], |h.nodes|;
    SlotLeads(h, a, b);
    AllocateKeepsInv(h, key, val, RankAbove(h, head));
    var h1 := Allocate(h, key, val, RankAbove(h, head));
    SetNextKeepsInv(h1, n, head);
    SetSlotKeepsInv(SetNext(h1, n, head), a, b, At(n));
  }

  /** The head's count goes up for its new predecessor and down for its slot. */
  lemma PushIs<K, V>(h: Heap<K, V>, a: nat, b: nat, key: K, val: V)
    requires Inv(h) && IsSlot(h, a, b)
    ensures Push(h, a, b, key, val).nodes == h.nodes + [Node(key, val, h.arrays[a][b], 1, false, RankAbove(h, h.arrays[a][b]))]
    ensures Push(h, a, b, key, val).arrays == h.arrays[a := h.arrays[a][b := At(|h.nodes|)]]
  {
    SlotLeads(h, a, b);
  }

  lemma RedirectKeepsInv<K, V>(h: Heap<K, V>, a: nat, b: nat, prev: Ptr, q: Ptr)
    requires Inv(h) && IsSlot(h, a, b) && Leads(h, prev) && Leads(h, q)
    requires prev.At? && q.At? ==> h.nodes[q.n].rank < h.nodes[prev.n].rank
    ensures Inv(Redirect(h, a, b, prev, q))
  {
    if prev.At? { SetNextKeepsInv(h, prev.n, q); } else { SetSlotKeepsInv(h, a, b, q); }
  }

  lemma ReplaceKeepsInv<K, V>(h: Heap<K, V>, a: nat, b: nat, prev: Ptr, n: nat, key: K, val: V)
    requires Inv(h) && IsSlot(h, a, b) && Leads(h, prev) && n < |h.nodes|
    requires prev.At? ==> h.nodes[prev.n].next == At(n)
    ensures Inv(Replace(h, a, b, prev, n, key, val))
  {
    var cur := |h.nodes|;
    NextLeads(h, n);
    assert SharedChains.NodeInv(h, n);
    AllocateKeepsInv(h, key, val, h.nodes[n].rank);
    var h1 := Allocate(h, key, val, h.nodes[n].rank);
    SetNextKeepsInv(h1, cur, h.nodes[n].next);
    if prev.At? { assert SharedChains.NodeInv(h, prev.n); }
    RedirectKeepsInv(SetNext(h1, cur, h.nodes[n].next), a, b, prev, At(cur));
  }

  lemma UnlinkKeepsInv<K, V>(h: Heap<K, V>, a: nat, b: nat, prev: Ptr, n: nat)
    requires Inv(h) && IsSlot(h, a, b) && Leads(h, prev) && n < |h.nodes|
    requires prev.At? ==> h.nodes[prev.n].next == At(n)
    ensures Inv(Unlink(h, a, b, prev, n))
  {
    NextLeads(h, n);
    assert SharedChains.NodeInv(h, n);
    if prev.At? { assert SharedChains.NodeInv(h, prev.n); }
    RedirectKeepsInv(h, a, b, prev, h.nodes[n].next);
  }

  // ---------- They do to the table what they should ----------

  /** A bucket is as it was if its slot, its nodes and the map's values for them are. */
  lemma BucketKept<K, V>(h: Heap<K, V>, h': Heap<K, V>, a: nat, index: K -> nat, m: map<K, V>, m': map<K, V>, b: nat, c: seq<nat>)
    requires Bucket(h, a, index, m, b, c)
    requires IsSlot(h', a, b) && h'.arrays[a][b] == h.arrays[a][b]
    requires forall i | 0 <= i < |c| :: SameNode(h, h', c[i])
    requires forall k | k in m && index(k) == b :: k in m' && m'[k] == m[k]
    ensures Bucket(h', a, index, m', b, c)
  {
    forall i | 0 <= i < |c| ensures HasItem(h', c[i], b, index, m') { assert HasItem(h, c[i], b, index, m) && SameNode(h, h', c[i]); }
    forall i | 0 <= i < |c| ensures LinkAt(h', c, i) { assert LinkAt(h, c, i) && SameNode(h, h', c[i]); }
    forall i, j | 0 <= i < j < |c| ensures h'.nodes[c[i]].key != h'.nodes[c[j]].key {
      assert SameNode(h, h', c[i]) && SameNode(h, h', c[j]);
    }
  }

  lemma HasKeyKept<K, V>(h: Heap<K, V>, h': Heap<K, V>, c: seq<nat>, k: K)
    requires HasKey(h, c, k) && forall i | 0 <= i < |c| && c[i] < |h.nodes| :: SameItem(h, h', c[i])
    ensures HasKey(h', c, k)
  {
    var i :| 0 <= i < |c| && c[i] < |h.nodes| && h.nodes[c[i]].key == k;
    assert SameItem(h, h', c[i]);
  }

  /** A table is as it was if its array is and every node of its chains is. */
  lemma TableKept<K, V>(h: Heap<K, V>, h': Heap<K, V>, a: nat, index: K -> nat, chains: seq<seq<nat>>, m: map<K, V>)
    requires Table(h, a, index, chains, m)
    requires a < |h'.arrays| && h'.arrays[a] == h.arrays[a]
    requires forall b, i | 0 <= b < |chains| && 0 <= i < |chains[b]| :: SameNode(h, h', chains[b][i])
    ensures Table(h', a, index, chains, m)
  {
    forall b | 0 <= b < |chains| ensures Bucket(h', a, index, m, b, chains[b]) {
      assert Bucket(h, a, index, m, b, chains[b]);
      BucketKept(h, h', a, index, m, m, b, chains[b]);
    }
    forall k | k in m ensures Finds(h', index, chains, k) {
      assert Finds(h, index, chains, k);
      forall i | 0 <= i < |chains[index(k)]| ensures SameItem(h, h', chains[index(k)][i]) {
        assert SameNode(h, h', chains[index(k)][i]);
      }
      HasKeyKept(h, h', chains[index(k)], k);
    }
  }

  /** An operation that works on bucket `b` alone. */
  ghost predicate OnlyBucket<K, V>(h: Heap<K, V>, h': Heap<K, V>, a: nat, b: nat, chains: seq<seq<nat>>) {
    && IsSlot(h, a, b) && a < |h'.arrays| && |h'.arrays[a]| == |h.arrays[a]| == |chains|
    && (forall d | 0 <= d < |chains| && d != b :: h'.arrays[a][d] == h.arrays[a][d])
    && (forall d, i | 0 <= d < |chains| && d != b && 0 <= i < |chains[d]| :: SameNode(h, h', chains[d][i]))
  }

  ghost predicate SameElsewhere<K, V>(index: K -> nat, m: map<K, V>, m': map<K, V>, b: nat) {
    && (forall k | k in m && index(k) != b :: k in m' && m'[k] == m[k])
    && (forall k | k in m' && index(k) != b :: k in m)
  }

  lemma OneBucketChanges<K, V>(h: Heap<K, V>, h': Heap<K, V>, a: nat, index: K -> nat, chains: seq<seq<nat>>,
                               m: map<K, V>, m': map<K, V>, b: nat, c': seq<nat>)
    requires Table(h, a, index, chains, m) && OnlyBucket(h, h', a, b, chains) && SameElsewhere(index, m, m', b)
    requires Bucket(h', a, index, m', b, c') && forall k | k in m' && index(k) == b :: HasKey(h', c', k)
    ensures Table(h', a, index, chains[b := c'], m')
  {
    forall d | 0 <= d < |chains| && d != b ensures Bucket(h', a, index, m', d, chains[d]) {
      assert Bucket(h, a, index, m, d, chains[d]);
      BucketKept(h, h', a, index, m, m', d, chains[d]);
    }
    forall k | k in m' ensures Finds(h', index, chains[b := c'], k) {
      if index(k) != b {
        assert Finds(h, index, chains, k);
        forall i | 0 <= i < |chains[index(k)]| ensures SameItem(h, h', chains[index(k)][i]) {
          assert SameNode(h, h', chains[index(k)][i]);
        }
        HasKeyKept(h, h', chains[index(k)], k);
      }
    }
  }

  /** One reference has changed: the next pointer of node `prev`, or the slot if there is none, now is `q`. */
  ghost predicate Redirected<K, V>(h: Heap<K, V>, h': Heap<K, V>, a: nat, b: nat, prev: Ptr, q: Ptr) {
    && IsSlot(h, a, b) && |h.nodes| <= |h'.nodes| && |h'.arrays| == |h.arrays| && |h'.arrays[a]| == |h.arrays[a]|
    && (forall j {:trigger SameItem(h, h', j)} | 0 <= j < |h.nodes| :: SameItem(h, h', j))
    && (forall j | 0 <= j < |h.nodes| :: h'.nodes[j].next == if prev == At(j) then q else h.nodes[j].next)
    && (forall x | 0 <= x < |h.arrays| && x != a :: h'.arrays[x] == h.arrays[x])
    && (forall d | 0 <= d < |h.arrays[a]| && d != b :: h'.arrays[a][d] == h.arrays[a][d])
    && h'.arrays[a][b] == if prev.At? then h.arrays[a][b] else q
  }

  ghost predicate IsItem<K, V>(h: Heap<K, V>, n: nat, key: K, val: V) {
    n < |h.nodes| && h.nodes[n].key == key && h.nodes[n].val == val
  }

  /** The node before number `i` of a chain. */
  function Before(c: seq<nat>, i: nat): Ptr
    requires i <= |c|
  {
    if i > 0 then At(c[i - 1]) else Null
  }

  lemma RedirectedOnlyBucket<K, V>(h: Heap<K, V>, h': Heap<K, V>, a: nat, index: K -> nat, chains: seq<seq<nat>>,
                                   m: map<K, V>, b: nat, i: nat, q: Ptr)
    requires Table(h, a, index, chains, m) && b < |chains| && i <= |chains[b]|
    requires Redirected(h, h', a, b, Before(chains[b], i), q)
    ensures OnlyBucket(h, h', a, b, chains)
  {
    assert Bucket(h, a, index, m, b, chains[b]);
    if i > 0 { assert HasItem(h, chains[b][i - 1], b, index, m); }
    forall d, j | 0 <= d < |chains| && d != b && 0 <= j < |chains[d]| ensures SameNode(h, h', chains[d][j]) {
      assert Bucket(h, a, index, m, d, chains[d]);
      assert HasItem(h, chains[d][j], d, index, m);
      assert SameItem(h, h', chains[d][j]);
    }
  }

  /** A new key is pushed onto its bucket. */
  lemma PushOntoTable<K, V>(h: Heap<K, V>, h': Heap<K, V>, a: nat, index: K -> nat, chains: seq<seq<nat>>,
                            m: map<K, V>, b: nat, key: K, val: V)
    requires Table(h, a, index, chains, m) && b < |chains| && index(key) == b && key !in m
    requires Redirected(h, h', a, b, Null, At(|h.nodes|)) && IsItem(h', |h.nodes|, key, val)
    requires h'.nodes[|h.nodes|].next == h.arrays[a][b]
    ensures Table(h', a, index, chains[b := [|h.nodes|] + chains[b]], m[key := val])
  {
    var n, m' := |h.nodes|, m[key := val];
    var c := chains[b];
    var c' := [n] + c;
    assert Bucket(h, a, index, m, b, c);
    RedirectedOnlyBucket(h, h', a, index, chains, m, b, 0, At(n));
    PushOntoBucket(h, h', a, index, m, b, c, key, val);
    forall k | k in m' && index(k) == b ensures HasKey(h', c', k) {
      if k != key { assert Finds(h, index, chains, k); }
      PushedKey(h, h', c, key, k);
    }
    OneBucketChanges(h, h', a, index, chains, m, m', b, c');
  }

  lemma PushedKey<K, V>(h: Heap<K, V>, h': Heap<K, V>, c: seq<nat>, key: K, k: K)
    requires k == key || HasKey(h, c, k)
    requires forall j | 0 <= j < |h.nodes| :: SameItem(h, h', j)
    requires |h.nodes| < |h'.nodes| && h'.nodes[|h.nodes|].key == key
    ensures HasKey(h', [|h.nodes|] + c, k)
  {
    var c' := [|h.nodes|] + c;
    if k == key {
      assert c'[0] == |h.nodes|;
    } else {
      var i :| 0 <= i < |c| && c[i] < |h.nodes| && h.nodes[c[i]].key == k;
      assert c'[i + 1] == c[i] && SameItem(h, h', c[i]);
    }
  }

  lemma PushOntoChain<K, V>(h: Heap<K, V>, h': Heap<K, V>, a: nat, b: nat, c: seq<nat>)
    requires Redirected(h, h', a, b, Null, At(|h.nodes|)) && IsChain(h, h.arrays[a][b], c)
    requires |h.nodes| < |h'.nodes| && h'.nodes[|h.nodes|].next == h.arrays[a][b]
    ensures IsChain(h', h'.arrays[a][b], [|h.nodes|] + c)
  {
    var c' := [|h.nodes|] + c;
    forall i | 0 <= i < |c'| ensures LinkAt(h', c', i) {
      if i > 0 { assert LinkAt(h, c, i - 1) && c'[i] == c[i - 1]; }
    }
  }

  lemma PushOntoBucket<K, V>(h: Heap<K, V>, h': Heap<K, V>, a: nat, index: K -> nat, m: map<K, V>, b: nat, c: seq<nat>, key: K, val: V)
    requires Bucket(h, a, index, m, b, c) && index(key) == b && key !in m
    requires Redirected(h, h', a, b, Null, At(|h.nodes|)) && IsItem(h', |h.nodes|, key, val)
    requires h'.nodes[|h.nodes|].next == h.arrays[a][b]
    ensures Bucket(h', a, index, m[key := val], b, [|h.nodes|] + c)
  {
    var c' := [|h.nodes|] + c;
    forall i | 0 <= i < |c'|
      ensures HasItem(h', c'[i], b, index, m[key := val])
      ensures i > 0 ==> c'[i] < |h.nodes| && SameItem(h, h', c'[i]) && h'.nodes[c'[i]].key != key
    {
      if i > 0 { assert HasItem(h, c[i - 1], b, index, m) && SameItem(h, h', c[i - 1]); }
    }
    PushOntoChain(h, h', a, b, c);
    forall i, j | 0 <= i < j < |c'| ensures h'.nodes[c'[i]].key != h'.nodes[c'[j]].key {
      if i > 0 { assert c'[i] == c[i - 1] && c'[j] == c[j - 1]; }
    }
  }

  function Put(c: seq<nat>, i: nat, n: nat): seq<nat>
    requires i < |c|
  {
    c[i := n]
  }

  function Drop(c: seq<nat>, i: nat): seq<nat>
    requires i < |c|
  {
    c[..i] + c[i + 1..]
  }

  /** The value of a key is replaced: its node's place in the chain goes to a new node. */
  lemma ReplaceInTable<K, V>(h: Heap<K, V>, h': Heap<K, V>, a: nat, index: K -> nat, chains: seq<seq<nat>>,
                             m: map<K, V>, b: nat, i: nat, key: K, val: V)
    requires Table(h, a, index, chains, m) && b < |chains| && i < |chains[b]|
    requires chains[b][i] < |h.nodes| && h.nodes[chains[b][i]].key == key
    requires Redirected(h, h', a, b, Before(chains[b], i), At(|h.nodes|)) && IsItem(h', |h.nodes|, key, val)
    requires h'.nodes[|h.nodes|].next == h.nodes[chains[b][i]].next
    ensures Table(h', a, index, chains[b := Put(chains[b], i, |h.nodes|)], m[key := val])
  {
    var c, m' := chains[b], m[key := val];
    var c' := Put(c, i, |h.nodes|);
    assert Bucket(h, a, index, m, b, c);
    assert HasItem(h, c[i], b, index, m);
    RedirectedOnlyBucket(h, h', a, index, chains, m, b, i, At(|h.nodes|));
    ReplaceInBucket(h, h', a, index, m, b, c, i, key, val);
    forall k | k in m' && index(k) == b ensures HasKey(h', c', k) {
      assert Finds(h, index, chains, k);
      ReplacedKey(h, h', c, i, k);
    }
    OneBucketChanges(h, h', a, index, chains, m, m', b, c');
  }

  lemma ReplacedKey<K, V>(h: Heap<K, V>, h': Heap<K, V>, c: seq<nat>, i: nat, k: K)
    requires HasKey(h, c, k) && i < |c| && c[i] < |h.nodes|
    requires forall j | 0 <= j < |h.nodes| :: SameItem(h, h', j)
    requires |h.nodes| < |h'.nodes| && h'.nodes[|h.nodes|].key == h.nodes[c[i]].key
    ensures HasKey(h', Put(c, i, |h.nodes|), k)
  {
    var j :| 0 <= j < |c| && c[j] < |h.nodes| && h.nodes[c[j]].key == k;
    assert SameItem(h, h', c[j]);
    var c' := Put(c, i, |h.nodes|);
    assert c'[j] < |h'.nodes| && h'.nodes[c'[j]].key == k;
  }

  lemma ReplaceInBucket<K, V>(h: Heap<K, V>, h': Heap<K, V>, a: nat, index: K -> nat, m: map<K, V>, b: nat, c: seq<nat>, i: nat,
                              key: K, val: V)
    requires Bucket(h, a, index, m, b, c) && i < |c| && c[i] < |h.nodes| && h.nodes[c[i]].key == key
    requires Redirected(h, h', a, b, Before(c, i), At(|h.nodes|)) && IsItem(h', |h.nodes|, key, val)
    requires h'.nodes[|h.nodes|].next == h.nodes[c[i]].next
    ensures Bucket(h', a, index, m[key := val], b, Put(c, i, |h.nodes|))
  {
    var c' := Put(c, i, |h.nodes|);
    forall j | 0 <= j < |c'|
      ensures HasItem(h', c'[j], b, index, m[key := val]) && h'.nodes[c'[j]].key == h.nodes[c[j]].key
    {
      assert HasItem(h, c[j], b, index, m) && SameItem(h, h', c[j]);
    }
    forall j | 0 <= j < |c'| ensures LinkAt(h', c', j) {
      assert LinkAt(h, c, j) && HasItem(h, c[j], b, index, m) && HasItem(h, c[i], b, index, m);
      assert LinkAt(h, c, i);
    }
  }

  /** A key is taken out: the node before it, or the slot, leads to the node behind it. */
  lemma UnlinkFromTable<K, V>(h: Heap<K, V>, h': Heap<K, V>, a: nat, index: K -> nat, chains: seq<seq<nat>>,
                              m: map<K, V>, b: nat, i: nat, key: K)
    requires Table(h, a, index, chains, m) && b < |chains| && i < |chains[b]|
    requires chains[b][i] < |h.nodes| && h.nodes[chains[b][i]].key == key
    requires Redirected(h, h', a, b, Before(chains[b], i), h.nodes[chains[b][i]].next)
    ensures Table(h', a, index, chains[b := Drop(chains[b], i)], m - {key})
  {
    var c' := Drop(chains[b], i);
    assert Bucket(h, a, index, m, b, chains[b]);
    assert HasItem(h, chains[b][i], b, index, m);
    RedirectedOnlyBucket(h, h', a, index, chains, m, b, i, h.nodes[chains[b][i]].next);
    UnlinkFromBucket(h, h', a, index, m, b, chains[b], i, key);
    UnlinkKeepsKeys(h, h', index, chains, m, b, i, key);
    SameWithout(index, m, key);
    OneBucketChanges(h, h', a, index, chains, m, m - {key}, b, c');
  }

  lemma SameWithout<K, V>(index: K -> nat, m: map<K, V>, key: K)
    ensures SameElsewhere(index, m, m - {key}, index(key))
  {
  }

  lemma UnlinkKeepsKeys<K, V>(h: Heap<K, V>, h': Heap<K, V>, index: K -> nat, chains: seq<seq<nat>>, m: map<K, V>, b: nat, i: nat, key: K)
    requires b < |chains| && i < |chains[b]| && chains[b][i] < |h.nodes| && h.nodes[chains[b][i]].key == key
    requires forall k | k in m :: Finds(h, index, chains, k)
    requires forall j | 0 <= j < |h.nodes| :: SameItem(h, h', j)
    ensures forall k | k in m - {key} && index(k) == b :: HasKey(h', Drop(chains[b], i), k)
  {
    forall k | k in m - {key} && index(k) == b ensures HasKey(h', Drop(chains[b], i), k) {
      assert Finds(h, index, chains, k);
      KeptKey(h, h', chains[b], i, k);
    }
  }

  lemma KeptKey<K, V>(h: Heap<K, V>, h': Heap<K, V>, c: seq<nat>, i: nat, k: K)
    requires HasKey(h, c, k) && i < |c| && c[i] < |h.nodes| && h.nodes[c[i]].key != k
    requires forall j | 0 <= j < |h.nodes| :: SameItem(h, h', j)
    ensures HasKey(h', Drop(c, i), k)
  {
    var j :| 0 <= j < |c| && c[j] < |h.nodes| && h.nodes[c[j]].key == k;
    assert SameItem(h, h', c[j]);
    assert c[j] == Drop(c, i)[if j < i then j else j - 1];
  }

  lemma UnlinkFromBucket<K, V>(h: Heap<K, V>, h': Heap<K, V>, a: nat, index: K -> nat, m: map<K, V>, b: nat, c: seq<nat>, i: nat, key: K)
    requires Bucket(h, a, index, m, b, c) && i < |c| && c[i] < |h.nodes| && h.nodes[c[i]].key == key
    requires Redirected(h, h', a, b, Before(c, i), h.nodes[c[i]].next)
    ensures Bucket(h', a, index, m - {key}, b, Drop(c, i))
  {
    var c' := Drop(c, i);
    forall j | 0 <= j < |c'|
      ensures c'[j] == c[if j < i then j else j + 1] && HasItem(h', c'[j], b, index, m - {key}) && SameItem(h, h', c'[j])
    {
      var x := if j < i then j else j + 1;
      assert HasItem(h, c[x], b, index, m) && SameItem(h, h', c[x]);
      assert h.nodes[c[x]].key != key;
    }
    forall j | 0 <= j < |c'| ensures LinkAt(h', c', j) {
      var x := if j < i then j else j + 1;
      assert LinkAt(h, c, x) && LinkAt(h, c, i) && HasItem(h, c[x], b, index, m) && HasItem(h, c[i], b, index, m);
    }
    if i == 0 { assert LinkAt(h, c, 0); }
    forall j, l | 0 <= j < l < |c'| ensures h'.nodes[c'[j]].key != h'.nodes[c'[l]].key {
      assert c'[j] == c[if j < i then j else j + 1] && c'[l] == c[if l < i then l else l + 1];
    }
  }

  // ---------- Indices ----------

  /** The bucket of a key in an array of 2^log buckets. */
  function IndexFn<K>(hash: K -> nat, shardBits: nat, log: nat): K -> nat {
    (k: K) => (hash(k) / Pow2(shardBits)) % Pow2(log)
  }

  lemma IndexIsBelow<K>(hash: K -> nat, shardBits: nat, log: nat, k: K)
    ensures IndexFn(hash, shardBits, log)(k) < Pow2(log)
  {
  }

  /** Twice as many buckets: each old bucket is shared out between two new ones. */
  lemma DoubledIndex<K>(hash: K -> nat, shardBits: nat, log: nat, k: K)
    ensures IndexFn(hash, shardBits, log + 1)(k) % Pow2(log) == IndexFn(hash, shardBits, log)(k)
  {
    ModOfMod(hash(k) / Pow2(shardBits), 2, Pow2(log));
  }

  // ---------- Rehashing ----------

  /** All nodes of the chain from number `r` on belong into the same new bucket, and the node before does not. */
  ghost predicate IsLastRun<K, V>(h: Heap<K, V>, c: seq<nat>, r: nat, index: K -> nat) {
    && r < |c| && (forall i | 0 <= i < |c| :: c[i] < |h.nodes|)
    && (forall i | r <= i < |c| :: index(h.nodes[c[i]].key) == index(h.nodes[c[r]].key))
    && (r > 0 ==> index(h.nodes[c[r - 1]].key) != index(h.nodes[c[r]].key))
  }

  /** The keys moved so far: those of the buckets below `i`, and of bucket `i` the clones of the first `j` nodes and the run. */
  ghost predicate Moved<K, V>(h: Heap<K, V>, index: K -> nat, m: map<K, V>, part: map<K, V>, i: nat, c: seq<nat>, j: nat, r: nat) {
    && (forall k | k in part :: k in m && part[k] == m[k])
    && (forall k | k in m && index(k) != i :: k in part <==> index(k) < i)
    && (forall x | 0 <= x < |c| && c[x] < |h.nodes| :: h.nodes[c[x]].key in part <==> x < j || x >= r)
  }

  /** The new bucket for the last run is still empty: what is in it would come from the same old bucket. */
  lemma RunGoesIntoEmptyBucket<K, V>(h: Heap<K, V>, was: nat, now: nat, index: K -> nat, index': K -> nat, log: nat,
      chains: seq<seq<nat>>, chains': seq<seq<nat>>, m: map<K, V>, part: map<K, V>, i: nat, r: nat)
    requires Table(h, was, index, chains, m) && Table(h, now, index', chains', part)
    requires i < |chains| && r < |chains[i]| && chains[i][r] < |h.nodes|
    requires forall k :: index'(k) % Pow2(log) == index(k)
    requires Moved(h, index, m, part, i, chains[i], 0, |chains[i]|)
    requires index'(h.nodes[chains[i][r]].key) < |chains'|
    ensures chains'[index'(h.nodes[chains[i][r]].key)] == []
  {
    var key := h.nodes[chains[i][r]].key;
    var d := chains'[index'(key)];
    assert Bucket(h, was, index, m, i, chains[i]) && HasItem(h, chains[i][r], i, index, m);
    assert Bucket(h, now, index', part, index'(key), d);
    assert index'(key) % Pow2(log) == index(key);
    forall k | k in m && index'(k) == index'(key) ensures k !in part {
      assert index'(k) % Pow2(log) == index(k);
      NotYetMoved(h, was, index, chains, m, part, i, k);
    }
    assert d != [] ==> HasItem(h, d[0], index'(key), index', part);
  }

  lemma NotYetMoved<K, V>(h: Heap<K, V>, a: nat, index: K -> nat, chains: seq<seq<nat>>, m: map<K, V>, part: map<K, V>, i: nat, k: K)
    requires Table(h, a, index, chains, m) && i < |chains| && Moved(h, index, m, part, i, chains[i], 0, |chains[i]|)
    requires k in m && index(k) == i
    ensures k !in part
  {
    assert Finds(h, index, chains, k);
    var x :| 0 <= x < |chains[i]| && chains[i][x] < |h.nodes| && h.nodes[chains[i][x]].key == k;
  }

  /** The map with the keys of the run. */
  ghost function WithRun<K, V>(h: Heap<K, V>, m: map<K, V>, part: map<K, V>, run: seq<nat>): map<K, V> {
    part + map k | k in m && HasKey(h, run, k) :: m[k]
  }

  lemma AdoptInBucket<K, V>(h: Heap<K, V>, h': Heap<K, V>, now: nat, index: K -> nat, index': K -> nat,
      m: map<K, V>, part': map<K, V>, was: nat, i: nat, c: seq<nat>, r: nat, b: nat)
    requires Bucket(h, was, index, m, i, c) && IsLastRun(h, c, r, index') && b == index'(h.nodes[c[r]].key)
    requires Redirected(h, h', now, b, Null, At(c[r]))
    requires forall k | HasKey(h, c[r..], k) && k in m :: k in part' && part'[k] == m[k]
    ensures Bucket(h', now, index', part', b, c[r..])
  {
    var run := c[r..];
    forall x | 0 <= x < |run| ensures run[x] == c[r + x] && SameNode(h, h', run[x]) && HasItem(h', run[x], b, index', part') {
      AdoptItem(h, h', now, index, index', m, part', i, c, r, b, x);
    }
    ChainSuffix(h, h', h.arrays[was][i], c, r);
    forall x, y | 0 <= x < y < |run| ensures h'.nodes[run[x]].key != h'.nodes[run[y]].key {
      assert run[x] == c[r + x] && run[y] == c[r + y];
    }
  }

  lemma AdoptItem<K, V>(h: Heap<K, V>, h': Heap<K, V>, now: nat, index: K -> nat, index': K -> nat,
      m: map<K, V>, part': map<K, V>, i: nat, c: seq<nat>, r: nat, b: nat, x: nat)
    requires IsLastRun(h, c, r, index') && b == index'(h.nodes[c[r]].key) && x < |c| - r
    requires Redirected(h, h', now, b, Null, At(c[r])) && HasItem(h, c[r + x], i, index, m)
    requires forall k | HasKey(h, c[r..], k) && k in m :: k in part' && part'[k] == m[k]
    ensures c[r..][x] == c[r + x] && SameNode(h, h', c[r + x]) && HasItem(h', c[r + x], b, index', part')
  {
    assert SameItem(h, h', c[r + x]) && c[r..][x] == c[r + x];
    assert HasKey(h, c[r..], h.nodes[c[r + x]].key);
  }

  lemma ChainSuffix<K, V>(h: Heap<K, V>, h': Heap<K, V>, p: Ptr, c: seq<nat>, r: nat)
    requires IsChain(h, p, c) && r < |c| && forall x | 0 <= x < |c| - r :: SameNode(h, h', c[r..][x])
    ensures IsChain(h', At(c[r]), c[r..])
  {
    forall x | 0 <= x < |c| - r ensures LinkAt(h', c[r..], x) {
      assert c[r..][x] == c[r + x] && SameNode(h, h', c[r..][x]) && LinkAt(h, c, r + x);
    }
  }

  /** The run is shared with the new array. */
  lemma AdoptInTable<K, V>(h: Heap<K, V>, h': Heap<K, V>, was: nat, now: nat, index: K -> nat, index': K -> nat,
      chains: seq<seq<nat>>, chains': seq<seq<nat>>, m: map<K, V>, part: map<K, V>, i: nat, r: nat, b: nat)
    requires Table(h, was, index, chains, m) && Table(h, now, index', chains', part)
    requires i < |chains| && IsLastRun(h, chains[i], r, index') && b == index'(h.nodes[chains[i][r]].key) < |chains'| && chains'[b] == []
    requires Redirected(h, h', now, b, Null, At(chains[i][r]))
    requires forall k | k in part :: k in m && part[k] == m[k]
    ensures Table(h', now, index', chains'[b := chains[i][r..]], WithRun(h, m, part, chains[i][r..]))
  {
    var c, part' := chains[i], WithRun(h, m, part, chains[i][r..]);
    assert Bucket(h, was, index, m, i, c);
    RunKeys(h, was, index, m, i, c, r, index');
    AdoptInBucket(h, h', now, index, index', m, part', was, i, c, r, b);
    RedirectedOnlyBucket(h, h', now, index', chains', part, b, 0, At(c[r]));
    AdoptKeepsKeys(h, h', index', chains', m, part, c[r..], b);
    OneBucketChanges(h, h', now, index', chains', part, part', b, c[r..]);
  }

  lemma AdoptKeepsKeys<K, V>(h: Heap<K, V>, h': Heap<K, V>, index': K -> nat, chains': seq<seq<nat>>,
      m: map<K, V>, part: map<K, V>, run: seq<nat>, b: nat)
    requires b < |chains'| && chains'[b] == [] && forall k | k in part :: Finds(h, index', chains', k)
    requires forall j | 0 <= j < |h.nodes| :: SameItem(h, h', j)
    ensures forall k | k in WithRun(h, m, part, run) && index'(k) == b :: HasKey(h', run, k)
  {
    forall k | k in WithRun(h, m, part, run) && index'(k) == b ensures HasKey(h', run, k) {
      assert k in part ==> Finds(h, index', chains', k);
      assert HasKey(h, run, k);
      HasKeyKept(h, h', run, k);
    }
  }

  lemma AdoptMoves<K, V>(h: Heap<K, V>, a: nat, index: K -> nat, index': K -> nat, m: map<K, V>, part: map<K, V>, i: nat, c: seq<nat>, r: nat)
    requires Bucket(h, a, index, m, i, c) && IsLastRun(h, c, r, index') && Moved(h, index, m, part, i, c, 0, |c|)
    ensures Moved(h, index, m, WithRun(h, m, part, c[r..]), i, c, 0, r)
  {
    RunKeys(h, a, index, m, i, c, r, index');
    forall x | 0 <= x < |c| ensures h.nodes[c[x]].key in WithRun(h, m, part, c[r..]) <==> x >= r {
      assert HasItem(h, c[x], i, index, m);
    }
  }

  lemma RunKeys<K, V>(h: Heap<K, V>, a: nat, index: K -> nat, m: map<K, V>, i: nat, c: seq<nat>, r: nat, index': K -> nat)
    requires Bucket(h, a, index, m, i, c) && IsLastRun(h, c, r, index')
    ensures forall k | HasKey(h, c[r..], k) :: k in m && index(k) == i && index'(k) == index'(h.nodes[c[r]].key)
    ensures forall x | 0 <= x < |c| :: HasKey(h, c[r..], h.nodes[c[x]].key) <==> x >= r
  {
    forall k | HasKey(h, c[r..], k) ensures k in m && index(k) == i && index'(k) == index'(h.nodes[c[r]].key) {
      var x :| 0 <= x < |c[r..]| && c[r..][x] < |h.nodes| && h.nodes[c[r..][x]].key == k;
      assert HasItem(h, c[r + x], i, index, m);
    }
    forall x | 0 <= x < |c| ensures HasKey(h, c[r..], h.nodes[c[x]].key) <==> x >= r {
      if x >= r { assert c[r..][x - r] == c[x]; }
    }
  }

  lemma MovedKept<K, V>(h: Heap<K, V>, h': Heap<K, V>, a: nat, index: K -> nat, m: map<K, V>, part: map<K, V>, i: nat, c: seq<nat>,
                        j: nat, r: nat)
    requires Bucket(h, a, index, m, i, c) && Moved(h, index, m, part, i, c, j, r)
    requires forall n | 0 <= n < |h.nodes| :: SameItem(h, h', n)
    ensures Moved(h', index, m, part, i, c, j, r)
  {
    forall x | 0 <= x < |c| ensures SameItem(h, h', c[x]) {
      assert HasItem(h, c[x], i, index, m);
    }
  }

  /** A node of the old chain is cloned onto its new bucket. */
  lemma CloneMoves<K, V>(h: Heap<K, V>, index: K -> nat, m: map<K, V>, part: map<K, V>, i: nat, c: seq<nat>, j: nat, r: nat)
    requires KeysDiffer(h, c) && (forall x | 0 <= x < |c| :: HasItem(h, c[x], i, index, m))
    requires j < r <= |c| && Moved(h, index, m, part, i, c, j, r) && c[j] < |h.nodes|
    ensures h.nodes[c[j]].key !in part
    ensures Moved(h, index, m, part[h.nodes[c[j]].key := h.nodes[c[j]].val], i, c, j + 1, r)
  {
    var key := h.nodes[c[j]].key;
    assert HasItem(h, c[j], i, index, m);
    var part' := part[key := h.nodes[c[j]].val];
    forall x | 0 <= x < |c| && c[x] < |h.nodes| ensures h.nodes[c[x]].key in part' <==> x < j + 1 || x >= r {
      if x < j { assert h.nodes[c[x]].key != key; } else if j < x { assert h.nodes[c[x]].key != key; }
    }
  }

  // ---------- Between buckets ----------

  predicate MovedIff<K(==), V>(index: K -> nat, part: map<K, V>, i: nat, k: K) { k in part <==> index(k) < i }

  /** The keys of the buckets below `i` have been moved, and no others. */
  ghost predicate MovedBelow<K, V>(index: K -> nat, m: map<K, V>, part: map<K, V>, i: nat) {
    && (forall k | k in part :: k in m && part[k] == m[k])
    && (forall k {:trigger MovedIff(index, part, i, k)} | k in m :: MovedIff(index, part, i, k))
  }

  lemma StartBucket<K, V>(h: Heap<K, V>, a: nat, index: K -> nat, m: map<K, V>, part: map<K, V>, i: nat, c: seq<nat>)
    requires Bucket(h, a, index, m, i, c) && MovedBelow(index, m, part, i)
    ensures Moved(h, index, m, part, i, c, 0, |c|)
  {
    forall x | 0 <= x < |c| ensures h.nodes[c[x]].key !in part {
      assert HasItem(h, c[x], i, index, m) && MovedIff(index, part, i, h.nodes[c[x]].key);
    }
    forall k | k in m && index(k) != i ensures k in part <==> index(k) < i { assert MovedIff(index, part, i, k); }
  }

  lemma FinishBucket<K, V>(h: Heap<K, V>, a: nat, index: K -> nat, chains: seq<seq<nat>>, m: map<K, V>, part: map<K, V>, i: nat, j: nat, r: nat)
    requires Table(h, a, index, chains, m) && i < |chains| && Moved(h, index, m, part, i, chains[i], j, r) && j >= r
    ensures MovedBelow(index, m, part, i + 1)
  {
    forall k | k in m ensures MovedIff(index, part, i + 1, k) {
      if index(k) == i { MovedAll(h, a, index, chains, m, part, i, j, r, k); }
    }
  }

  lemma MovedAll<K, V>(h: Heap<K, V>, a: nat, index: K -> nat, chains: seq<seq<nat>>, m: map<K, V>, part: map<K, V>, i: nat, j: nat, r: nat, k: K)
    requires Table(h, a, index, chains, m) && i < |chains| && Moved(h, index, m, part, i, chains[i], j, r) && j >= r
    requires k in m && index(k) == i
    ensures k in part
  {
    assert Finds(h, index, chains, k);
    var x :| 0 <= x < |chains[i]| && chains[i][x] < |h.nodes| && h.nodes[chains[i][x]].key == k;
  }

  // ---------- The facts that the class relies on ----------

  lemma PushRedirects<K, V>(h: Heap<K, V>, a: nat, b: nat, key: K, val: V)
    requires Inv(h) && IsSlot(h, a, b)
    ensures var h' := Push(h, a, b, key, val); Redirected(h, h', a, b, Null, At(|h.nodes|)) && IsItem(h', |h.nodes|, key, val)
    ensures Push(h, a, b, key, val).nodes[|h.nodes|].next == h.arrays[a][b]
  {
    PushIs(h, a, b, key, val);
  }

  lemma RedirectRedirects<K, V>(h: Heap<K, V>, a: nat, b: nat, prev: Ptr, q: Ptr)
    requires IsSlot(h, a, b) && (prev.At? ==> prev.n < |h.nodes|)
    ensures Redirected(h, Redirect(h, a, b, prev, q), a, b, prev, q)
    ensures |Redirect(h, a, b, prev, q).nodes| == |h.nodes|
  {
  }

  lemma ReplaceRedirects<K, V>(h: Heap<K, V>, a: nat, b: nat, prev: Ptr, n: nat, key: K, val: V)
    requires IsSlot(h, a, b) && (prev.At? ==> prev.n < |h.nodes|) && n < |h.nodes| && Leads(h, h.nodes[n].next)
    ensures var h' := Replace(h, a, b, prev, n, key, val); Redirected(h, h', a, b, prev, At(|h.nodes|)) && IsItem(h', |h.nodes|, key, val)
    ensures Replace(h, a, b, prev, n, key, val).nodes[|h.nodes|].next == h.nodes[n].next
  {
    var cur := |h.nodes|;
    var h1 := SetNext(Allocate(h, key, val, h.nodes[n].rank), cur, h.nodes[n].next);
    assert forall j | 0 <= j < |h.nodes| :: SameItem(h, h1, j) && h1.nodes[j].next == h.nodes[j].next;
    RedirectRedirects(h1, a, b, prev, At(cur));
    var h' := Redirect(h1, a, b, prev, At(cur));
    forall j | 0 <= j < |h.nodes| ensures SameItem(h, h', j) { assert SameItem(h, h1, j) && SameItem(h1, h', j); }
    assert SameItem(h1, h', cur);
  }

  // ---------- The segment ----------

  datatype InsertType = DoesNotExist | MustExist | Any | Match

  function BucketOf<K>(hash: K -> nat, shardBits: nat, log: nat, k: K): nat { IndexFn(hash, shardBits, log)(k) }

  /** What an operation leaves alone: every item stays with its node, and no node is deleted. */
  ghost predicate Extends<K, V>(h: Heap<K, V>, h': Heap<K, V>) {
    && |h.nodes| <= |h'.nodes| && |h.arrays| <= |h'.arrays|
    && (forall n {:trigger SameItem(h, h', n)} | 0 <= n < |h.nodes| :: SameItem(h, h', n))
    && forall n | 0 <= n < |h.nodes| :: h'.nodes[n].deleted == h.nodes[n].deleted
  }

  ghost predicate Empty(slots: seq<Ptr>) { forall b | 0 <= b < |slots| :: slots[b] == Null }

  /** A heap with the current array `a`, the retired arrays and the destroyed ones; `m` is what the segment contains. */
  ghost predicate Whole<K, V>(h: Heap<K, V>, a: nat, index: K -> nat, chains: seq<seq<nat>>, m: map<K, V>, retired: set<nat>) {
    && Inv(h) && Table(h, a, index, chains, m)
    && a !in retired && (forall x | x in retired :: x < |h.arrays|)
    && (forall x | 0 <= x < |h.arrays| && x != a && x !in retired :: Empty(h.arrays[x]))
  }

  lemma ChangeKeepsWhole<K, V>(h: Heap<K, V>, h': Heap<K, V>, a: nat, index: K -> nat, chains: seq<seq<nat>>, chains': seq<seq<nat>>,
      m: map<K, V>, m': map<K, V>, retired: set<nat>, b: nat, prev: Ptr, q: Ptr)
    requires Whole(h, a, index, chains, m, retired) && Redirected(h, h', a, b, prev, q)
    requires Inv(h') && Table(h', a, index, chains', m')
    ensures Whole(h', a, index, chains', m', retired)
  {
  }

  /** A new node with the item now comes first in slot `b`. */
  ghost predicate Pushed<K, V>(h: Heap<K, V>, h': Heap<K, V>, a: nat, b: nat, key: K, val: V) {
    && Inv(h') && Extends(h, h')
    && Redirected(h, h', a, b, Null, At(|h.nodes|)) && IsItem(h', |h.nodes|, key, val)
    && h'.nodes[|h.nodes|].next == h.arrays[a][b]
  }

  lemma PushPushes<K, V>(h: Heap<K, V>, a: nat, b: nat, key: K, val: V)
    requires Inv(h) && IsSlot(h, a, b)
    ensures Pushed(h, Push(h, a, b, key, val), a, b, key, val)
  {
    PushKeepsInv(h, a, b, key, val);
    PushRedirects(h, a, b, key, val);
    PushIs(h, a, b, key, val);
  }

  lemma AddKeyKeeps<K, V>(h: Heap<K, V>, h': Heap<K, V>, a: nat, index: K -> nat, chains: seq<seq<nat>>, m: map<K, V>,
                          retired: set<nat>, b: nat, key: K, val: V)
    requires Whole(h, a, index, chains, m, retired) && b == index(key) < |chains| && key !in m
    requires Pushed(h, h', a, b, key, val)
    ensures Whole(h', a, index, chains[b := [|h.nodes|] + chains[b]], m[key := val], retired)
  {
    PushOntoTable(h, h', a, index, chains, m, b, key, val);
    ChangeKeepsWhole(h, h', a, index, chains, chains[b := [|h.nodes|] + chains[b]], m, m[key := val], retired, b, Null, At(|h.nodes|));
  }

  /** A search of the chain of bucket `b` has come to `node`, after `prev`: number `i` of the chain. */
  ghost predicate Searching(chains: seq<seq<nat>>, b: nat, i: nat, prev: Ptr, node: Ptr) {
    b < |chains| && i <= |chains[b]| && node == From(chains[b], i) && prev == Before(chains[b], i)
  }

  /** What the search has found is in the heap, and what comes before it leads to it. */
  lemma Found<K, V>(h: Heap<K, V>, a: nat, index: K -> nat, chains: seq<seq<nat>>, m: map<K, V>, b: nat, i: nat, prev: Ptr, node: Ptr)
    requires Inv(h) && Table(h, a, index, chains, m) && Searching(chains, b, i, prev, node)
    ensures IsSlot(h, a, b) && Leads(h, prev) && Leads(h, node)
    ensures if prev.At? then h.nodes[prev.n].next == node else h.arrays[a][b] == node
    ensures node.At? ==> h.nodes[node.n].next == From(chains[b], i + 1) && Leads(h, h.nodes[node.n].next)
    ensures node.At? ==> HasItem(h, node.n, b, index, m)
  {
    var c := chains[b];
    assert Bucket(h, a, index, m, b, c);
    if i > 0 {
      assert LinkAt(h, c, i - 1);
      NextLeads(h, c[i - 1]);
      if i > 1 { assert LinkAt(h, c, i - 2); NextLeads(h, c[i - 2]); } else { SlotLeads(h, a, b); }
    } else {
      SlotLeads(h, a, b);
    }
    if node.At? { assert LinkAt(h, c, i) && HasItem(h, node.n, b, index, m); NextLeads(h, node.n); }
  }

  /** A new node with the item has taken the place of node `n` behind `prev`. */
  ghost predicate Replaced<K, V>(h: Heap<K, V>, h': Heap<K, V>, a: nat, b: nat, prev: Ptr, n: nat, key: K, val: V) {
    && Inv(h') && Extends(h, h') && n < |h.nodes|
    && Redirected(h, h', a, b, prev, At(|h.nodes|)) && IsItem(h', |h.nodes|, key, val)
    && h'.nodes[|h.nodes|].next == h.nodes[n].next
  }

  lemma ReplaceReplaces<K, V>(h: Heap<K, V>, a: nat, b: nat, prev: Ptr, n: nat, key: K, val: V)
    requires Inv(h) && IsSlot(h, a, b) && Leads(h, prev) && n < |h.nodes|
    requires prev.At? ==> h.nodes[prev.n].next == At(n)
    ensures Replaced(h, Replace(h, a, b, prev, n, key, val), a, b, prev, n, key, val)
  {
    NextLeads(h, n);
    ReplaceKeepsInv(h, a, b, prev, n, key, val);
    ReplaceRedirects(h, a, b, prev, n, key, val);
    ReplaceExtends(h, a, b, prev, n, key, val);
  }

  lemma ReplaceExtends<K, V>(h: Heap<K, V>, a: nat, b: nat, prev: Ptr, n: nat, key: K, val: V)
    requires IsSlot(h, a, b) && (prev.At? ==> prev.n < |h.nodes|) && n < |h.nodes|
    ensures Extends(h, Replace(h, a, b, prev, n, key, val))
  {
    var h1 := SetNext(Allocate(h, key, val, h.nodes[n].rank), |h.nodes|, h.nodes[n].next);
    assert Extends(h, h1);
    RedirectExtends(h1, a, b, prev, At(|h.nodes|));
    var h2 := Redirect(h1, a, b, prev, At(|h.nodes|));
    forall j | 0 <= j < |h.nodes| ensures SameItem(h, h2, j) { assert SameItem(h, h1, j) && SameItem(h1, h2, j); }
  }

  lemma RedirectExtends<K, V>(h: Heap<K, V>, a: nat, b: nat, prev: Ptr, q: Ptr)
    requires IsSlot(h, a, b) && (prev.At? ==> prev.n < |h.nodes|)
    ensures Extends(h, Redirect(h, a, b, prev, q))
  {
  }

  lemma ReplaceKeeps<K, V>(h: Heap<K, V>, h': Heap<K, V>, a: nat, index: K -> nat, chains: seq<seq<nat>>, m: map<K, V>,
                           retired: set<nat>, b: nat, i: nat, prev: Ptr, n: nat, key: K, val: V)
    requires Whole(h, a, index, chains, m, retired) && Searching(chains, b, i, prev, At(n)) && n < |h.nodes| && h.nodes[n].key == key
    requires Replaced(h, h', a, b, prev, n, key, val)
    ensures Whole(h', a, index, chains[b := Put(chains[b], i, |h.nodes|)], m[key := val], retired)
  {
    ReplaceInTable(h, h', a, index, chains, m, b, i, key, val);
    ChangeKeepsWhole(h, h', a, index, chains, chains[b := Put(chains[b], i, |h.nodes|)], m, m[key := val], retired, b, prev, At(|h.nodes|));
  }

  /** Node `n` behind `prev` has been taken out of its chain. */
  ghost predicate Unlinked<K, V>(h: Heap<K, V>, h': Heap<K, V>, a: nat, b: nat, prev: Ptr, n: nat) {
    && Inv(h') && Extends(h, h') && n < |h.nodes| == |h'.nodes|
    && Redirected(h, h', a, b, prev, h.nodes[n].next)
  }

  lemma UnlinkUnlinks<K, V>(h: Heap<K, V>, a: nat, b: nat, prev: Ptr, n: nat)
    requires Inv(h) && IsSlot(h, a, b) && Leads(h, prev) && n < |h.nodes|
    requires prev.At? ==> h.nodes[prev.n].next == At(n)
    ensures Unlinked(h, Unlink(h, a, b, prev, n), a, b, prev, n)
  {
    UnlinkKeepsInv(h, a, b, prev, n);
    RedirectRedirects(h, a, b, prev, h.nodes[n].next);
  }

  lemma UnlinkKeeps<K, V>(h: Heap<K, V>, h': Heap<K, V>, a: nat, index: K -> nat, chains: seq<seq<nat>>, m: map<K, V>,
                          retired: set<nat>, b: nat, i: nat, prev: Ptr, n: nat, key: K)
    requires Whole(h, a, index, chains, m, retired) && Searching(chains, b, i, prev, At(n)) && n < |h.nodes| && h.nodes[n].key == key
    requires Unlinked(h, h', a, b, prev, n)
    ensures Whole(h', a, index, chains[b := Drop(chains[b], i)], m - {key}, retired)
  {
    UnlinkFromTable(h, h', a, index, chains, m, b, i, key);
    ChangeKeepsWhole(h, h', a, index, chains, chains[b := Drop(chains[b], i)], m, m - {key}, retired, b, prev, h.nodes[n].next);
  }

  lemma ExtendsTransitively<K, V>(h0: Heap<K, V>, h1: Heap<K, V>, h2: Heap<K, V>)
    requires Extends(h0, h1) && Extends(h1, h2)
    ensures Extends(h0, h2)
  {
    forall n | 0 <= n < |h0.nodes| ensures SameItem(h0, h2, n) { assert SameItem(h0, h1, n) && SameItem(h1, h2, n); }
  }

  /** Halfway through a rehash: the map is still in array `was`, and a part of it is already in array `now`, twice as long. */
  ghost predicate Rehashing<K, V>(h: Heap<K, V>, was: nat, now: nat, hash: K -> nat, shardBits: nat, log: nat,
      chains: seq<seq<nat>>, chains': seq<seq<nat>>, m: map<K, V>, part: map<K, V>) {
    && Inv(h) && was != now
    && Table(h, was, IndexFn(hash, shardBits, log), chains, m) && |chains| == Pow2(log)
    && Table(h, now, IndexFn(hash, shardBits, log + 1), chains', part) && |chains'| == Pow2(log + 1)
  }

  /** Nothing but array `now` and new nodes. */
  ghost predicate OnlyArray<K, V>(h: Heap<K, V>, h': Heap<K, V>, now: nat) {
    Extends(h, h') && |h'.arrays| == |h.arrays| && forall x | 0 <= x < |h.arrays| && x != now :: h'.arrays[x] == h.arrays[x]
  }

  lemma OldTableKept<K, V>(h: Heap<K, V>, h': Heap<K, V>, was: nat, now: nat, index: K -> nat, chains: seq<seq<nat>>, m: map<K, V>,
                           b: nat, q: Ptr)
    requires Table(h, was, index, chains, m) && Redirected(h, h', now, b, Null, q) && was != now
    ensures Table(h', was, index, chains, m)
  {
    forall d, i | 0 <= d < |chains| && 0 <= i < |chains[d]| ensures SameNode(h, h', chains[d][i]) {
      assert Bucket(h, was, index, m, d, chains[d]);
      assert HasItem(h, chains[d][i], d, index, m) && SameItem(h, h', chains[d][i]);
    }
    TableKept(h, h', was, index, chains, m);
  }

  /** What a chain leads to has not been deleted. */
  lemma ChainLeads<K, V>(h: Heap<K, V>, a: nat, b: nat, c: seq<nat>, i: nat)
    requires Inv(h) && IsSlot(h, a, b) && IsChain(h, h.arrays[a][b], c) && i < |c|
    ensures Leads(h, At(c[i])) && h.nodes[c[i]].refs > 0
  {
    if i == 0 { SlotLeads(h, a, b); } else { assert LinkAt(h, c, i - 1); NextLeads(h, c[i - 1]); }
  }

  lemma DoubledEverywhere<K>(hash: K -> nat, shardBits: nat, log: nat)
    ensures forall k :: IndexFn(hash, shardBits, log + 1)(k) % Pow2(log) == IndexFn(hash, shardBits, log)(k)
  {
    forall k ensures IndexFn(hash, shardBits, log + 1)(k) % Pow2(log) == IndexFn(hash, shardBits, log)(k) {
      DoubledIndex(hash, shardBits, log, k);
    }
  }

  /** Where the last run of bucket `i` goes is an empty slot, and its first node is still there. */
  lemma RunHasRoom<K, V>(h: Heap<K, V>, was: nat, now: nat, hash: K -> nat, shardBits: nat, log: nat,
      chains: seq<seq<nat>>, chains': seq<seq<nat>>, m: map<K, V>, part: map<K, V>, i: nat, r: nat, b: nat)
    requires Rehashing(h, was, now, hash, shardBits, log, chains, chains', m, part) && i < |chains|
    requires r < |chains[i]| && chains[i][r] < |h.nodes| && b == BucketOf(hash, shardBits, log + 1, h.nodes[chains[i][r]].key)
    requires Moved(h, IndexFn(hash, shardBits, log), m, part, i, chains[i], 0, |chains[i]|)
    ensures b < |chains'| && chains'[b] == []
    ensures IsSlot(h, now, b) && h.arrays[now][b] == Null
    ensures Leads(h, At(chains[i][r])) && h.nodes[chains[i][r]].refs > 0
  {
    var index, index' := IndexFn(hash, shardBits, log), IndexFn(hash, shardBits, log + 1);
    DoubledEverywhere(hash, shardBits, log);
    IndexIsBelow(hash, shardBits, log + 1, h.nodes[chains[i][r]].key);
    RunGoesIntoEmptyBucket(h, was, now, index, index', log, chains, chains', m, part, i, r);
    assert Bucket(h, now, index', part, b, chains'[b]);
    assert Bucket(h, was, index, m, i, chains[i]);
    ChainLeads(h, was, i, chains[i], r);
  }

  /** The empty slot `b` now refers to a node that was there before. */
  ghost predicate Shared<K, V>(h: Heap<K, V>, h': Heap<K, V>, now: nat, b: nat, run: nat) {
    Inv(h') && OnlyArray(h, h', now) && Redirected(h, h', now, b, Null, At(run))
  }

  lemma SetSlotShares<K, V>(h: Heap<K, V>, now: nat, b: nat, run: nat)
    requires Inv(h) && IsSlot(h, now, b) && Leads(h, At(run))
    ensures Shared(h, SetSlot(h, now, b, At(run)), now, b, run)
  {
    SetSlotKeepsInv(h, now, b, At(run));
    RedirectRedirects(h, now, b, Null, At(run));
    RedirectExtends(h, now, b, Null, At(run));
  }

  /** Sharing the last run of bucket `i`. */
  lemma ShareKeeps<K, V>(h: Heap<K, V>, h': Heap<K, V>, was: nat, now: nat, hash: K -> nat, shardBits: nat, log: nat,
      chains: seq<seq<nat>>, chains': seq<seq<nat>>, m: map<K, V>, part: map<K, V>, i: nat, r: nat, b: nat)
    requires Rehashing(h, was, now, hash, shardBits, log, chains, chains', m, part) && i < |chains|
    requires IsLastRun(h, chains[i], r, IndexFn(hash, shardBits, log + 1))
    requires b == BucketOf(hash, shardBits, log + 1, h.nodes[chains[i][r]].key) < |chains'| && chains'[b] == []
    requires Moved(h, IndexFn(hash, shardBits, log), m, part, i, chains[i], 0, |chains[i]|)
    requires Shared(h, h', now, b, chains[i][r])
    ensures var run := chains[i][r..]; var part' := WithRun(h, m, part, run);
      && Rehashing(h', was, now, hash, shardBits, log, chains, chains'[b := run], m, part')
      && Moved(h', IndexFn(hash, shardBits, log), m, part', i, chains[i], 0, r)
  {
    var c := chains[i];
    var index, index' := IndexFn(hash, shardBits, log), IndexFn(hash, shardBits, log + 1);
    assert Bucket(h, was, index, m, i, c);
    OldTableKept(h, h', was, now, index, chains, m, b, At(c[r]));
    AdoptInTable(h, h', was, now, index, index', chains, chains', m, part, i, r, b);
    AdoptMoves(h, was, index, index', m, part, i, c, r);
    MovedKept(h, h', was, index, m, WithRun(h, m, part, c[r..]), i, c, 0, r);
  }

  /** Cloning node number `j` of bucket `i`. */
  lemma CloneKeeps<K, V>(h: Heap<K, V>, h': Heap<K, V>, was: nat, now: nat, hash: K -> nat, shardBits: nat, log: nat,
      chains: seq<seq<nat>>, chains': seq<seq<nat>>, m: map<K, V>, part: map<K, V>, i: nat, j: nat, r: nat, b: nat)
    requires Rehashing(h, was, now, hash, shardBits, log, chains, chains', m, part) && i < |chains|
    requires j < r <= |chains[i]| && chains[i][j] < |h.nodes| && b < |chains'|
    requires b == BucketOf(hash, shardBits, log + 1, h.nodes[chains[i][j]].key)
    requires Moved(h, IndexFn(hash, shardBits, log), m, part, i, chains[i], j, r)
    requires var node := h.nodes[chains[i][j]]; Pushed(h, h', now, b, node.key, node.val)
    ensures OnlyArray(h, h', now)
    ensures var node := h.nodes[chains[i][j]];
      Rehashing(h', was, now, hash, shardBits, log, chains, chains'[b := [|h.nodes|] + chains'[b]], m, part[node.key := node.val])
      && Moved(h', IndexFn(hash, shardBits, log), m, part[node.key := node.val], i, chains[i], j + 1, r)
  {
    var c, node := chains[i], h.nodes[chains[i][j]];
    var index, index' := IndexFn(hash, shardBits, log), IndexFn(hash, shardBits, log + 1);
    assert Bucket(h, was, index, m, i, c);
    CloneMoves(h, index, m, part, i, c, j, r);
    MovedKept(h, h', was, index, m, part[node.key := node.val], i, c, j + 1, r);
    OldTableKept(h, h', was, now, index, chains, m, b, At(|h.nodes|));
    PushOntoTable(h, h', now, index', chains', part, b, node.key, node.val);
  }

  lemma OnlyArrayTransitively<K, V>(h0: Heap<K, V>, h1: Heap<K, V>, h2: Heap<K, V>, now: nat)
    requires OnlyArray(h0, h1, now) && OnlyArray(h1, h2, now)
    ensures OnlyArray(h0, h2, now)
  {
    ExtendsTransitively(h0, h1, h2);
  }

  /** A node is in a chain once. */
  lemma SameNodeOnce<K, V>(h: Heap<K, V>, a: nat, index: K -> nat, m: map<K, V>, b: nat, c: seq<nat>, j: nat, r: nat)
    requires Bucket(h, a, index, m, b, c) && j <= r < |c| && c[j] == c[r]
    ensures j == r
  {
    assert HasItem(h, c[j], b, index, m) && HasItem(h, c[r], b, index, m);
  }

  function NoChains(n: nat): seq<seq<nat>> { seq(n, _ => []) }

  lemma StartRehash<K, V>(h: Heap<K, V>, was: nat, hash: K -> nat, shardBits: nat, log: nat, chains: seq<seq<nat>>, m: map<K, V>)
    requires Inv(h) && Table(h, was, IndexFn(hash, shardBits, log), chains, m) && |chains| == Pow2(log)
    ensures var slots := seq(|h.arrays[was]| * 2, _ => Null); var h' := h.(arrays := h.arrays + [slots]);
      && Extends(h, h')
      && RehashedBelow(h', h', was, |h.arrays|, hash, shardBits, log, chains, NoChains(Pow2(log + 1)), m, map[], 0)
  {
    var slots := seq(|h.arrays[was]| * 2, _ => Null);
    var h' := h.(arrays := h.arrays + [slots]);
    AddArrayKeepsInv(h, slots);
    forall d, i | 0 <= d < |chains| && 0 <= i < |chains[d]| ensures SameNode(h, h', chains[d][i]) {
      assert Bucket(h, was, IndexFn(hash, shardBits, log), m, d, chains[d]);
      assert HasItem(h, chains[d][i], d, IndexFn(hash, shardBits, log), m);
    }
    TableKept(h, h', was, IndexFn(hash, shardBits, log), chains, m);
    EmptyTable(h', |h.arrays|, IndexFn<K>(hash, shardBits, log + 1), m);
    forall n | 0 <= n < |h.nodes| ensures SameItem(h', h', n) && SameItem(h, h', n) {}
  }

  lemma EmptyTable<K, V>(h: Heap<K, V>, a: nat, index: K -> nat, m: map<K, V>)
    requires a < |h.arrays| && Empty(h.arrays[a])
    ensures Table(h, a, index, NoChains(|h.arrays[a]|), m - m.Keys)
    ensures m - m.Keys == map[]
  {
  }

  lemma EmptyBucket<K, V>(h: Heap<K, V>, a: nat, index: K -> nat, chains: seq<seq<nat>>, m: map<K, V>, part: map<K, V>, i: nat)
    requires Table(h, a, index, chains, m) && i < |chains| && MovedBelow(index, m, part, i) && h.arrays[a][i] == Null
    ensures MovedBelow(index, m, part, i + 1) && chains[i] == []
  {
    assert Bucket(h, a, index, m, i, chains[i]);
    forall k | k in m ensures MovedIff(index, part, i + 1, k) { assert Finds(h, index, chains, k) && MovedIff(index, part, i, k); }
  }

  /** Array `now` has been added, and new nodes; the older arrays are as they were. */
  ghost predicate Adds<K, V>(h0: Heap<K, V>, h: Heap<K, V>, now: nat) {
    Extends(h0, h) && now == |h0.arrays| && |h.arrays| == now + 1 && h.arrays[..now] == h0.arrays
  }

  ghost predicate EndsWith(c: seq<nat>, tail: seq<nat>) { |tail| <= |c| && c[|c| - |tail|..] == tail }

  /** The chains only grow at the front. */
  ghost predicate Grows(chains: seq<seq<nat>>, chains': seq<seq<nat>>) {
    |chains'| == |chains| && forall b | 0 <= b < |chains| :: EndsWith(chains'[b], chains[b])
  }

  lemma GrowsTransitively(a: seq<seq<nat>>, b: seq<seq<nat>>, c: seq<seq<nat>>)
    requires Grows(a, b) && Grows(b, c)
    ensures Grows(a, c)
  {
    forall i | 0 <= i < |a| ensures EndsWith(c[i], a[i]) {
      assert EndsWith(c[i], b[i]) && EndsWith(b[i], a[i]);
      assert c[i][|c[i]| - |a[i]|..] == c[i][|c[i]| - |b[i]|..][|b[i]| - |a[i]|..];
    }
  }

  /** The new array has the last run of chain `c`, and has it as the very same nodes. */
  ghost predicate SharesRun<K, V>(h: Heap<K, V>, c: seq<nat>, index: K -> nat, chains: seq<seq<nat>>) {
    c != [] ==> exists r: nat :: RunIsIn(h, c, r, index, chains)
  }

  ghost predicate RunIsIn<K, V>(h: Heap<K, V>, c: seq<nat>, r: nat, index: K -> nat, chains: seq<seq<nat>>) {
    IsLastRun(h, c, r, index) && index(h.nodes[c[r]].key) < |chains| && EndsWith(chains[index(h.nodes[c[r]].key)], c[r..])
  }

  lemma SharesRunKept<K, V>(h: Heap<K, V>, h': Heap<K, V>, c: seq<nat>, index: K -> nat, chains: seq<seq<nat>>, chains': seq<seq<nat>>)
    requires SharesRun(h, c, index, chains) && Grows(chains, chains')
    requires Extends(h, h') || Extends(h', h)
    requires forall i | 0 <= i < |c| :: c[i] < |h'.nodes|
    ensures SharesRun(h', c, index, chains')
  {
    if c != [] {
      var r: nat :| RunIsIn(h, c, r, index, chains);
      forall i | 0 <= i < |c| ensures h'.nodes[c[i]].key == h.nodes[c[i]].key {
        assert if Extends(h, h') then SameItem(h, h', c[i]) else SameItem(h', h, c[i]);
      }
      var b := index(h.nodes[c[r]].key);
      GrowsTransitively([c[r..]], [chains[b]], [chains'[b]]);
      assert EndsWith(chains'[b], c[r..]) by { assert Grows([c[r..]], [chains'[b]]); assert [chains'[b]][0] == chains'[b]; }
      assert RunIsIn(h', c, r, index, chains');
    }
  }

  lemma SharedRunIsIn<K, V>(h: Heap<K, V>, h': Heap<K, V>, c: seq<nat>, r: nat, index: K -> nat, chains: seq<seq<nat>>, b: nat)
    requires IsLastRun(h, c, r, index) && Extends(h, h') && b == index(h.nodes[c[r]].key) < |chains| && chains[b] == []
    ensures Grows(chains, chains[b := c[r..]]) && RunIsIn(h', c, r, index, chains[b := c[r..]])
  {
    forall i | 0 <= i < |c| ensures h'.nodes[c[i]].key == h.nodes[c[i]].key { assert SameItem(h, h', c[i]); }
  }

  /** The first `n` of the old chains share their last runs. */
  ghost predicate SharesBelow<K, V>(h: Heap<K, V>, olds: seq<seq<nat>>, n: nat, index: K -> nat, chains: seq<seq<nat>>)
    requires n <= |olds|
  {
    forall x | 0 <= x < n :: SharesRun(h, olds[x], index, chains)
  }

  lemma SharesBelowKept<K, V>(h: Heap<K, V>, h': Heap<K, V>, was: nat, index: K -> nat, m: map<K, V>, olds: seq<seq<nat>>, n: nat,
                              index': K -> nat, chains: seq<seq<nat>>, chains': seq<seq<nat>>)
    requires n < |olds| && SharesBelow(h, olds, n, index', chains) && SharesRun(h', olds[n], index', chains')
    requires Table(h, was, index, olds, m) && Extends(h, h') && Grows(chains, chains')
    ensures SharesBelow(h', olds, n + 1, index', chains')
  {
    forall x | 0 <= x < n ensures SharesRun(h', olds[x], index', chains') {
      assert Bucket(h, was, index, m, x, olds[x]);
      forall i | 0 <= i < |olds[x]| ensures olds[x][i] < |h'.nodes| { assert HasItem(h, olds[x][i], x, index, m); }
      SharesRunKept(h, h', olds[x], index', chains, chains');
    }
  }

  /** The rehash of `h0` has come to bucket `i`. */
  ghost predicate RehashedBelow<K, V>(h0: Heap<K, V>, h: Heap<K, V>, was: nat, now: nat, hash: K -> nat, shardBits: nat, log: nat,
      chains: seq<seq<nat>>, chains': seq<seq<nat>>, m: map<K, V>, part: map<K, V>, i: nat) {
    && Rehashing(h, was, now, hash, shardBits, log, chains, chains', m, part) && i <= |chains|
    && MovedBelow(IndexFn(hash, shardBits, log), m, part, i)
    && OnlyArray(h0, h, now)
    && SharesBelow(h, chains, i, IndexFn(hash, shardBits, log + 1), chains')
  }

  lemma BucketRehashed<K, V>(h0: Heap<K, V>, h: Heap<K, V>, h': Heap<K, V>, was: nat, now: nat, hash: K -> nat, shardBits: nat, log: nat,
      chains: seq<seq<nat>>, before: seq<seq<nat>>, chains': seq<seq<nat>>, m: map<K, V>, part: map<K, V>, i: nat)
    requires OnlyArray(h0, h, now) && i < |chains| && SharesBelow(h, chains, i, IndexFn(hash, shardBits, log + 1), before)
    requires Table(h, was, IndexFn(hash, shardBits, log), chains, m)
    requires Rehashing(h', was, now, hash, shardBits, log, chains, chains', m, part)
    requires MovedBelow(IndexFn(hash, shardBits, log), m, part, i + 1) && OnlyArray(h, h', now) && Grows(before, chains')
    requires SharesRun(h', chains[i], IndexFn(hash, shardBits, log + 1), chains')
    ensures RehashedBelow(h0, h', was, now, hash, shardBits, log, chains, chains', m, part, i + 1)
  {
    OnlyArrayTransitively(h0, h, h', now);
    SharesBelowKept(h, h', was, IndexFn(hash, shardBits, log), m, chains, i, IndexFn(hash, shardBits, log + 1), before, chains');
  }

  lemma AllMoved<K, V>(hash: K -> nat, shardBits: nat, log: nat, m: map<K, V>, part: map<K, V>)
    requires MovedBelow(IndexFn(hash, shardBits, log), m, part, Pow2(log))
    ensures part == m
  {
    forall k | k in m ensures k in part {
      IndexIsBelow(hash, shardBits, log, k);
      assert MovedIff(IndexFn(hash, shardBits, log), part, Pow2(log), k);
    }
  }

  lemma FinishRehash<K, V>(h: Heap<K, V>, was: nat, now: nat, hash: K -> nat, shardBits: nat, log: nat,
      chains: seq<seq<nat>>, chains': seq<seq<nat>>, m: map<K, V>, h0: Heap<K, V>, h1: Heap<K, V>, retired: set<nat>)
    requires Whole(h0, was, IndexFn(hash, shardBits, log), chains, m, retired)
    requires Adds(h0, h1, now) && OnlyArray(h1, h, now)
    requires Rehashing(h, was, now, hash, shardBits, log, chains, chains', m, m)
    ensures Whole(h, now, IndexFn(hash, shardBits, log + 1), chains', m, retired + {was}) && Adds(h0, h, now)
  {
    ExtendsTransitively(h0, h1, h);
    assert forall x | 0 <= x < now :: h.arrays[x] == h1.arrays[x] == h1.arrays[..now][x];
  }

  // ---------- Reclaiming ----------

  lemma ClearSlotKeeps<K, V>(h: Heap<K, V>, a: nat, index: K -> nat, chains: seq<seq<nat>>, m: map<K, V>, retired: set<nat>, x: nat, b: nat)
    requires Whole(h, a, index, chains, m, retired) && x in retired && IsSlot(h, x, b)
    ensures Whole(SetSlot(h, x, b, Null), a, index, chains, m, retired) && OnlyArray(h, SetSlot(h, x, b, Null), x)
  {
    SetSlotKeepsInv(h, x, b, Null);
    RedirectRedirects(h, x, b, Null, Null);
    RedirectExtends(h, x, b, Null, Null);
    OldTableKept(h, SetSlot(h, x, b, Null), a, x, index, chains, m, b, Null);
  }

  lemma DestroyedKeeps<K, V>(h: Heap<K, V>, a: nat, index: K -> nat, chains: seq<seq<nat>>, m: map<K, V>, retired: set<nat>, x: nat)
    requires Whole(h, a, index, chains, m, retired) && x in retired && Empty(h.arrays[x])
    ensures Whole(h, a, index, chains, m, retired - {x})
  {
  }

  lemma DeleteKeeps<K, V>(h: Heap<K, V>, a: nat, index: K -> nat, chains: seq<seq<nat>>, m: map<K, V>, retired: set<nat>, n: nat)
    requires Whole(h, a, index, chains, m, retired) && n < |h.nodes| && h.nodes[n].refs == 0 && !h.nodes[n].deleted
    ensures Whole(Delete(h, n), a, index, chains, m, retired)
  {
    var h' := Delete(h, n);
    DeleteKeepsInv(h, n);
    forall d, i | 0 <= d < |chains| && 0 <= i < |chains[d]| ensures SameNode(h, h', chains[d][i]) {
      assert Bucket(h, a, index, m, d, chains[d]) && HasItem(h, chains[d][i], d, index, m);
      ChainLeads(h, a, d, chains[d], i);
    }
    TableKept(h, h', a, index, chains, m);
  }

  ghost predicate InSomeChain(chains: seq<seq<nat>>, n: nat) { exists b :: 0 <= b < |chains| && n in chains[b] }

  /** With all other arrays gone, a path leads to a node of a chain. */
  lemma {:induction false} PathsStayInChains<K, V>(h: Heap<K, V>, a: nat, index: K -> nat, chains: seq<seq<nat>>, m: map<K, V>, path: seq<nat>)
    requires Whole(h, a, index, chains, m, {}) && IsPath(h, path)
    ensures InSomeChain(chains, path[|path| - 1])
  {
    if |path| == 1 {
      var x: nat, b: nat :| IsSlot(h, x, b) && h.arrays[x][b] == At(path[0]);
      assert Bucket(h, a, index, m, b, chains[b]);
      assert chains[b][0] == path[0];
    } else {
      PathsStayInChains(h, a, index, chains, m, path[..|path| - 1]);
      var n := path[|path| - 2];
      assert RefersTo(h, n, path[|path| - 2 + 1]);
      var b :| 0 <= b < |chains| && n in chains[b];
      assert Bucket(h, a, index, m, b, chains[b]);
      var i :| 0 <= i < |chains[b]| && chains[b][i] == n;
      assert LinkAt(h, chains[b], i);
      assert chains[b][i + 1] == path[|path| - 1];
    }
  }

  /** A node is in one chain, at one place. */
  lemma OnePlace<K, V>(h: Heap<K, V>, a: nat, index: K -> nat, chains: seq<seq<nat>>, m: map<K, V>, b: nat, i: nat, d: nat, j: nat)
    requires Table(h, a, index, chains, m) && b < |chains| && i < |chains[b]| && d < |chains| && j < |chains[d]|
    requires chains[b][i] == chains[d][j]
    ensures d == b && j == i
  {
    assert Bucket(h, a, index, m, b, chains[b]) && Bucket(h, a, index, m, d, chains[d]);
    assert HasItem(h, chains[b][i], b, index, m) && HasItem(h, chains[d][j], d, index, m);
    SameNodeOnce(h, a, index, m, b, chains[b], if j < i then j else i, if j < i then i else j);
  }

  lemma SlotsToNode<K, V>(h: Heap<K, V>, a: nat, index: K -> nat, chains: seq<seq<nat>>, m: map<K, V>, b: nat, i: nat)
    requires Whole(h, a, index, chains, m, {}) && b < |chains| && i < |chains[b]|
    ensures Sum(ArrayTo(chains[b][i]), h.arrays) == if i == 0 then 1 else 0
  {
    var n := chains[b][i];
    forall x | 0 <= x < |h.arrays| && x != a ensures ArrayTo(n)(h.arrays[x]) == 0 { SumIsZero(SlotTo(n), h.arrays[x]); }
    forall d | 0 <= d < |h.arrays[a]| ensures SlotTo(n)(h.arrays[a][d]) == if i == 0 && d == b then 1 else 0 {
      assert Bucket(h, a, index, m, d, chains[d]);
      if h.arrays[a][d] == At(n) { OnePlace(h, a, index, chains, m, b, i, d, 0); }
    }
    OnlyOneCounts(SlotTo(n), h.arrays[a], b);
    OnlyOneCounts(ArrayTo(n), h.arrays, a);
  }

  lemma EdgesToNode<K, V>(h: Heap<K, V>, a: nat, index: K -> nat, chains: seq<seq<nat>>, m: map<K, V>, b: nat, i: nat)
    requires Whole(h, a, index, chains, m, {}) && b < |chains| && i < |chains[b]|
    requires forall x | 0 <= x < |h.nodes| && !h.nodes[x].deleted :: InSomeChain(chains, x)
    ensures Sum(EdgeTo<K, V>(chains[b][i]), h.nodes) == if i > 0 then 1 else 0
  {
    var n := chains[b][i];
    forall x | 0 <= x < |h.nodes| && h.nodes[x].next == At(n) ensures i > 0 && x == chains[b][i - 1] {
      assert SharedChains.NodeInv(h, x);
      assert InSomeChain(chains, x);
      var d :| 0 <= d < |chains| && x in chains[d];
      var j :| 0 <= j < |chains[d]| && chains[d][j] == x;
      assert Bucket(h, a, index, m, d, chains[d]) && LinkAt(h, chains[d], j);
      OnePlace(h, a, index, chains, m, b, i, d, j + 1);
    }
    if i > 0 {
      assert Bucket(h, a, index, m, b, chains[b]) && LinkAt(h, chains[b], i - 1);
      OnlyOneCounts(EdgeTo<K, V>(n), h.nodes, chains[b][i - 1]);
    } else {
      SumIsZero(EdgeTo<K, V>(n), h.nodes);
    }
  }

  /** With all other arrays gone and every retired node deleted, the nodes of the current chains are left, and no others. */
  lemma OnlyChainsAreLeft<K, V>(h: Heap<K, V>, a: nat, index: K -> nat, chains: seq<seq<nat>>, m: map<K, V>, n: nat)
    requires Whole(h, a, index, chains, m, {}) && Quiet(h) && n < |h.nodes|
    ensures !h.nodes[n].deleted <==> InSomeChain(chains, n)
  {
    SurvivorsAreTheReachable(h, n);
    if Reachable(h, n) {
      var path :| IsPath(h, path) && path[|path| - 1] == n;
      PathsStayInChains(h, a, index, chains, m, path);
    }
    if InSomeChain(chains, n) {
      var b :| 0 <= b < |chains| && n in chains[b];
      var i :| 0 <= i < |chains[b]| && chains[b][i] == n;
      assert Bucket(h, a, index, m, b, chains[b]);
      ChainLeads(h, a, b, chains[b], i);
    }
  }

  /** ... and each of them is referred to once: the sharing of tails is over, and what was cloned away is gone. */
  lemma OnlyTheTableIsLeft<K, V>(h: Heap<K, V>, a: nat, index: K -> nat, chains: seq<seq<nat>>, m: map<K, V>, n: nat)
    requires Whole(h, a, index, chains, m, {}) && Quiet(h) && n < |h.nodes|
    ensures !h.nodes[n].deleted <==> InSomeChain(chains, n)
    ensures h.nodes[n].refs == if InSomeChain(chains, n) then 1 else 0
  {
    forall x | 0 <= x < |h.nodes| ensures !h.nodes[x].deleted <==> InSomeChain(chains, x) {
      OnlyChainsAreLeft(h, a, index, chains, m, x);
    }
    assert SharedChains.NodeInv(h, n);
    if InSomeChain(chains, n) {
      var b :| 0 <= b < |chains| && n in chains[b];
      var i :| 0 <= i < |chains[b]| && chains[b][i] == n;
      SlotsToNode(h, a, index, chains, m, b, i);
      EdgesToNode(h, a, index, chains, m, b, i);
    }
  }

  lemma ClearedKeeps<K, V>(h: Heap<K, V>, a: nat, index: K -> nat, chains: seq<seq<nat>>, m: map<K, V>, retired: set<nat>)
    requires Whole(h, a, index, chains, m, retired)
    ensures var h' := h.(arrays := h.arrays + [seq(|h.arrays[a]|, _ => Null)]);
      && Extends(h, h')
      && Whole(h', |h.arrays|, index, NoChains(|chains|), map[], retired + {a})
  {
    var slots := seq(|h.arrays[a]|, _ => Null);
    var h' := h.(arrays := h.arrays + [slots]);
    AddArrayKeepsInv(h, slots);
    forall n | 0 <= n < |h.nodes| ensures SameItem(h, h', n) {}
    EmptyTable(h', |h.arrays|, index, m);
  }

  ghost function Undeleted<K, V>(nodes: seq<Node<K, V>>): set<int> { set n | 0 <= n < |nodes| && !nodes[n].deleted }

  lemma OneFewer<K, V>(h: Heap<K, V>, n: nat)
    requires n < |h.nodes| && !h.nodes[n].deleted
    ensures |Undeleted(Delete(h, n).nodes)| == |Undeleted(h.nodes)| - 1
  {
    assert Undeleted(Delete(h, n).nodes) == Undeleted(h.nodes) - {n};
  }

  class Segment<K(==), V> {
    const hash: K -> nat
    const shardBits: nat
    var nodes: seq<Node<K, V>>
    var arrays: seq<seq<Ptr>>
    var current: nat             // buckets_
    var size: nat                // size_
    var threshold: nat           // load_factor_nodes_
    var retired: set<nat>        // bucket arrays that a reclaimer may destroy

    ghost var log: nat           // there are 2^log buckets
    ghost var chains: seq<seq<nat>>
    ghost var model: map<K, V>   // what the segment contains

    function H(): Heap<K, V>
      reads this
    {
      Heap(nodes, arrays)
    }

    ghost function Index(): K -> nat
      reads this
    {
      IndexFn(hash, shardBits, log)
    }

    ghost predicate Valid()
      reads this
    {
      Whole(H(), current, Index(), chains, model, retired) && |chains| == Pow2(log) && size == |model|
    }

    constructor (hash: K -> nat, shardBits: nat, initialBuckets: nat, threshold: nat)
      ensures Valid() && model == map[] && size == 0 && retired == {}
      ensures this.hash == hash && this.shardBits == shardBits && |arrays[current]| == NextPowTwo(initialBuckets)
    {
      var count := NextPowTwo(initialBuckets);
      this.hash, this.shardBits, this.threshold := hash, shardBits, threshold;
      nodes, arrays, current, size, retired := [], [seq(count, _ => Null)], 0, 0, {};
      log := if initialBuckets == 0 then 0 else FindLastSet(initialBuckets - 1);
      chains, model := NoChains(count), map[];
      new;
      EmptyTable(H(), 0, Index(), map[]);
      EmptyHeap(H());
    }

    /** getIdx */
    method GetIdx(a: nat, k: K) returns (b: nat)
      requires a < |arrays| && exists e: nat :: |arrays[a]| == Pow2(e)
      ensures forall e: nat | |arrays[a]| == Pow2(e) :: b == IndexFn(hash, shardBits, e)(k)
      ensures b < |arrays[a]|
    {
      b := BitAnd(ShiftRight(hash(k), shardBits), |arrays[a]| - 1);
      ShiftIsDiv(hash(k), shardBits);
      forall e: nat | |arrays[a]| == Pow2(e) ensures b == IndexFn(hash, shardBits, e)(k) {
        MaskIsMod(ShiftRight(hash(k), shardBits), e);
      }
    }

    /** acquire, on null too; nothing that is not referred to is acquired. */
    method Acquire(p: Ptr)
      requires p.At? ==> p.n < |nodes| && nodes[p.n].refs != 0
      modifies this`nodes
      ensures nodes == Count(old(nodes), p, 1)
    {
      if p.At? { nodes := nodes[p.n := nodes[p.n].(refs := nodes[p.n].refs + 1)]; }
    }

    /** release: a node left without references is retired, which leaves it to a reclaimer. */
    method Release(n: nat)
      requires n < |nodes|
      modifies this`nodes
      ensures nodes == Count(old(nodes), At(n), -1)
    {
      nodes := nodes[n := nodes[n].(refs := nodes[n].refs - 1)];
    }

    /** A new node in front of the chain of slot `b` of array `a`. */
    method PushNode(a: nat, b: nat, key: K, val: V)
      requires Inv(H()) && IsSlot(H(), a, b)
      modifies this`nodes, this`arrays
      ensures Pushed(old(H()), H(), a, b, key, val)
    {
      PushIs(H(), a, b, key, val);
      PushPushes(H(), a, b, key, val);
      var head := arrays[a][b];
      nodes := nodes + [Node(key, val, head, 1, false, RankAbove(H(), head))];
      arrays := arrays[a := arrays[a][b := At(|nodes| - 1)]];
    }

    /** A new node takes the place of `n`, which comes after `prev` or first in the chain of slot `b`. */
    method ReplaceNode(b: nat, prev: Ptr, n: nat, key: K, val: V)
      requires Inv(H()) && IsSlot(H(), current, b) && n < |nodes| && Leads(H(), prev)
      requires if prev.At? then nodes[prev.n].next == At(n) else arrays[current][b] == At(n)
      modifies this`nodes, this`arrays
      ensures Replaced(old(H()), H(), current, b, prev, n, key, val)
    {
      NextLeads(H(), n);
      ReplaceReplaces(H(), current, b, prev, n, key, val);
      var cur, next := |nodes|, nodes[n].next;
      nodes := nodes + [Node(key, val, next, 1, false, nodes[n].rank)];
      Acquire(next);
      assert nodes == Count(SetNext(Allocate(old(H()), key, val, old(nodes)[n].rank), cur, next).nodes, At(cur), 1);
      if prev.At? {
        nodes := nodes[prev.n := nodes[prev.n].(next := At(cur))];
      } else {
        arrays := arrays[current := arrays[current][b := At(cur)]];
      }
      Release(n);
      assert nodes == Replace(old(H()), current, b, prev, n, key, val).nodes;
    }

    /** Node `n`, which comes after `prev` or first in the chain of slot `b`, is taken out. */
    method UnlinkNode(b: nat, prev: Ptr, n: nat)
      requires Inv(H()) && IsSlot(H(), current, b) && n < |nodes| && Leads(H(), prev)
      requires if prev.At? then nodes[prev.n].next == At(n) else arrays[current][b] == At(n)
      modifies this`nodes, this`arrays
      ensures Unlinked(old(H()), H(), current, b, prev, n)
    {
      NextLeads(H(), n);
      UnlinkUnlinks(H(), current, b, prev, n);
      var next := nodes[n].next;
      Acquire(next);
      if prev.At? {
        nodes := nodes[prev.n := nodes[prev.n].(next := next)];
      } else {
        arrays := arrays[current := arrays[current][b := next]];
      }
      Release(n);
      assert nodes == Unlink(old(H()), current, b, prev, n).nodes;
    }

    /** Replaces the value of a key that the search has found. */
    method ReplaceFound(b: nat, ghost i: nat, prev: Ptr, n: nat, key: K, val: V)
      requires Valid() && Searching(chains, b, i, prev, At(n)) && n < |nodes| && nodes[n].key == key
      requires key in model
      modifies this
      ensures Valid() && model == old(model)[key := val] && log == old(log) && Extends(old(H()), H())
      ensures retired == old(retired) && current == old(current)
    {
      Found(H(), current, Index(), chains, model, b, i, prev, At(n));
      ReplaceNode(b, prev, n, key, val);
      ReplaceKeeps(old(H()), H(), current, Index(), chains, model, retired, b, i, prev, n, key, val);
      assert model[key := val].Keys == model.Keys;
      chains, model := chains[b := Put(chains[b], i, |old(nodes)|)], model[key := val];
    }

    /** Adds a key that the segment does not have. */
    method AddKey(b: nat, key: K, val: V)
      requires Valid() && b == BucketOf(hash, shardBits, log, key) && key !in model
      modifies this
      ensures Valid() && model == old(model)[key := val] && log == old(log) && Extends(old(H()), H())
      ensures retired == old(retired) && current == old(current)
    {
      IndexIsBelow(hash, shardBits, log, key);
      assert IsSlot(H(), current, b);
      PushNode(current, b, key, val);
      AddKeyKeeps(old(H()), H(), current, Index(), chains, model, retired, b, key, val);
      size, chains, model := size + 1, chains[b := [|old(nodes)|] + chains[b]], model[key := val];
    }

    /** Takes out a key that the search has found. */
    method UnlinkFound(b: nat, ghost i: nat, prev: Ptr, n: nat, key: K)
      requires Valid() && Searching(chains, b, i, prev, At(n)) && n < |nodes| && nodes[n].key == key
      requires key in model
      modifies this
      ensures Valid() && model == old(model) - {key} && log == old(log) && Extends(old(H()), H())
      ensures retired == old(retired) && current == old(current) && |nodes| == |old(nodes)|
    {
      Found(H(), current, Index(), chains, model, b, i, prev, At(n));
      UnlinkNode(b, prev, n);
      UnlinkKeeps(old(H()), H(), current, Index(), chains, model, retired, b, i, prev, n, key);
      SizeWithout(model, key);
      size, chains, model := size - 1, chains[b := Drop(chains[b], i)], model - {key};
    }

    /** The loop that insert and erase search with: either the key is found, or the segment does not have it. */
    method Search(key: K) returns (b: nat, node: Ptr, prev: Ptr, ghost i: nat)
      requires Valid()
      ensures b == BucketOf(hash, shardBits, log, key) && Searching(chains, b, i, prev, node)
      ensures node.At? <==> key in model
      ensures node.At? ==> node.n < |nodes| && nodes[node.n].key == key && nodes[node.n].val == model[key]
    {
      b := GetIdx(current, key);
      IndexIsBelow(hash, shardBits, log, key);
      node, prev, i := arrays[current][b], Null, 0;
      assert Bucket(H(), current, Index(), model, b, chains[b]);
      while node.At?
        invariant Searching(chains, b, i, prev, node)
        invariant forall j | 0 <= j < i :: chains[b][j] < |nodes| && nodes[chains[b][j]].key != key
        decreases |chains[b]| - i
      {
        Found(H(), current, Index(), chains, model, b, i, prev, node);
        if nodes[node.n].key == key { return; }
        prev, node, i := node, nodes[node.n].next, i + 1;
      }
      assert key in model ==> Finds(H(), Index(), chains, key);
    }

    /** insert_internal */
    method InsertInternal(kind: InsertType, key: K, val: V, matches: V -> bool) returns (done: bool)
      requires Valid()
      modifies this
      ensures Valid()
      ensures model == if done then old(model)[key := val] else old(model)
      ensures kind.DoesNotExist? ==> (done <==> key !in old(model))
      ensures kind.MustExist? ==> (done <==> key in old(model))
      ensures kind.Any? ==> done
      ensures kind.Match? ==> (done <==> key in old(model) && matches(old(model)[key]))
      ensures log > old(log) <==> old(size >= threshold) && (kind.DoesNotExist? || (kind.Any? && key !in old(model)))
      ensures old(log) <= log <= old(log) + 1
      ensures Extends(old(H()), H())
    {
      if size >= threshold && kind.DoesNotExist? {
        Rehash();
      }
      ghost var ready := H();
      var b, node, prev;
      ghost var i;
      b, node, prev, i := Search(key);
      if node.At? {
        if kind.Match? && !matches(nodes[node.n].val) { return false; }
        if kind.DoesNotExist? { return false; }
        ReplaceFound(b, i, prev, node.n, key, val);
        ExtendsTransitively(old(H()), ready, H());
        return true;
      }
      if !kind.DoesNotExist? && !kind.Any? { return false; }
      if size >= threshold && kind.Any? {
        Rehash();
        b := GetIdx(current, key);
      }
      ghost var reloaded := H();
      AddKey(b, key, val);
      ExtendsTransitively(ready, reloaded, H());
      ExtendsTransitively(old(H()), ready, H());
      return true;
    }

    /** erase_internal; the number of keys erased. */
    method EraseInternal(key: K) returns (count: nat)
      requires Valid()
      modifies this
      ensures Valid() && model == old(model) - {key} && Extends(old(H()), H())
      ensures count == if key in old(model) then 1 else 0
      ensures log == old(log) && retired == old(retired) && current == old(current)
    {
      var b, node, prev;
      ghost var i;
      b, node, prev, i := Search(key);
      if node.At? {
        UnlinkFound(b, i, prev, node.n, key);
        return 1;
      }
      return 0;
    }

    /** The longest run of nodes at the end of a chain that all belong into one bucket of array `now`. */
    method LastRun(now: nat, first: nat, ghost c: seq<nat>, ghost e: nat) returns (run: nat, idx: nat, ghost r: nat)
      requires IsChain(H(), At(first), c) && now < |arrays| && |arrays[now]| == Pow2(e)
      ensures IsLastRun(H(), c, r, IndexFn(hash, shardBits, e)) && run == c[r] && run < |nodes|
      ensures idx == BucketOf(hash, shardBits, e, nodes[run].key)
    {
      ghost var index := IndexFn(hash, shardBits, e);
      assert LinkAt(H(), c, 0);
      run := first;
      idx := GetIdx(now, nodes[first].key);
      r := 0;
      var last := nodes[first].next;
      ghost var p := 1;
      while last.At?
        invariant r < p <= |c| && last == From(c, p) && run == c[r] && run < |nodes|
        invariant idx == index(nodes[run].key)
        invariant forall x | r <= x < p :: c[x] < |nodes| && index(nodes[c[x]].key) == idx
        invariant r > 0 ==> c[r - 1] < |nodes| && index(nodes[c[r - 1]].key) != idx
        decreases |c| - p
      {
        assert LinkAt(H(), c, p);
        var k := GetIdx(now, nodes[last.n].key);
        if k != idx { idx, run, r := k, last.n, p; }
        last, p := nodes[last.n].next, p + 1;
      }
      forall x | 0 <= x < |c| ensures c[x] < |nodes| { assert LinkAt(H(), c, x); }
    }

    /** A clone of a node goes in front of its new bucket. */
    method CloneNode(was: nat, now: nat, i: nat, node: nat, ghost chains': seq<seq<nat>>, ghost part: map<K, V>, ghost j: nat, ghost r: nat)
        returns (next: Ptr, ghost chains'': seq<seq<nat>>, ghost part': map<K, V>)
      requires Rehashing(H(), was, now, hash, shardBits, log, chains, chains', model, part) && i < |chains|
      requires j < r <= |chains[i]| && node == chains[i][j]
      requires Moved(H(), Index(), model, part, i, chains[i], j, r)
      modifies this`nodes, this`arrays
      ensures next == From(chains[i], j + 1) && Grows(chains', chains'')
      ensures Rehashing(H(), was, now, hash, shardBits, log, chains, chains'', model, part')
      ensures Moved(H(), Index(), model, part', i, chains[i], j + 1, r)
      ensures OnlyArray(old(H()), H(), now)
    {
      assert Bucket(H(), was, Index(), model, i, chains[i]);
      assert LinkAt(H(), chains[i], j);
      var k := GetIdx(now, nodes[node].key);
      var item := nodes[node];
      next := nodes[node].next;
      PushNode(now, k, item.key, item.val);
      CloneKeeps(old(H()), H(), was, now, hash, shardBits, log, chains, chains', model, part, i, j, r, k);
      chains'', part' := chains'[k := [|old(nodes)|] + chains'[k]], part[item.key := item.val];
      assert chains''[k][1..] == chains'[k];
    }

    /** A bucket of array `was` is taken over into array `now`: its last run is shared, the nodes before it are cloned. */
    method RehashBucket(was: nat, now: nat, i: nat, ghost chains': seq<seq<nat>>, ghost part: map<K, V>)
        returns (ghost chains'': seq<seq<nat>>, ghost part': map<K, V>)
      requires Rehashing(H(), was, now, hash, shardBits, log, chains, chains', model, part)
      requires i < |chains| && MovedBelow(Index(), model, part, i)
      modifies this`nodes, this`arrays
      ensures Rehashing(H(), was, now, hash, shardBits, log, chains, chains'', model, part')
      ensures MovedBelow(Index(), model, part', i + 1)
      ensures OnlyArray(old(H()), H(), now) && Grows(chains', chains'')
      ensures SharesRun(H(), chains[i], IndexFn(hash, shardBits, log + 1), chains'')
    {
      ghost var c, index := chains[i], Index();
      assert Bucket(H(), was, index, model, i, c);
      if arrays[was][i] == Null {
        EmptyBucket(H(), was, index, chains, model, part, i);
        chains'', part' := chains', part;
        assert OnlyArray(H(), H(), now) by { assert forall n | 0 <= n < |nodes| :: SameItem(H(), H(), n); }
        return;
      }
      StartBucket(H(), was, index, model, part, i, c);
      var node := arrays[was][i].n;
      var run, idx;
      ghost var r;
      run, idx, r := LastRun(now, node, c, log + 1);
      chains'', part' := ShareRun(was, now, i, run, idx, chains', part, r);
      ghost var h, before := H(), chains'';
      chains'', part' := CloneRest(was, now, i, node, run, chains'', part', r);
      OnlyArrayTransitively(old(H()), h, H(), now);
      GrowsTransitively(chains', before, chains'');
      SharesRunKept(h, H(), c, IndexFn(hash, shardBits, log + 1), before, chains'');
      FinishBucket(H(), was, index, chains, model, part', i, r, r);
    }

    /** The last run of bucket `i` is acquired, and becomes the chain of its bucket in array `now`. */
    method ShareRun(was: nat, now: nat, i: nat, run: nat, idx: nat, ghost chains': seq<seq<nat>>, ghost part: map<K, V>, ghost r: nat)
        returns (ghost chains'': seq<seq<nat>>, ghost part': map<K, V>)
      requires Rehashing(H(), was, now, hash, shardBits, log, chains, chains', model, part) && i < |chains|
      requires IsLastRun(H(), chains[i], r, IndexFn(hash, shardBits, log + 1)) && run == chains[i][r] < |nodes|
      requires idx == BucketOf(hash, shardBits, log + 1, nodes[run].key)
      requires Moved(H(), Index(), model, part, i, chains[i], 0, |chains[i]|)
      modifies this`nodes, this`arrays
      ensures Rehashing(H(), was, now, hash, shardBits, log, chains, chains'', model, part')
      ensures Moved(H(), Index(), model, part', i, chains[i], 0, r)
      ensures OnlyArray(old(H()), H(), now) && Grows(chains', chains'') && RunIsIn(H(), chains[i], r, IndexFn(hash, shardBits, log + 1), chains'')
    {
      RunHasRoom(H(), was, now, hash, shardBits, log, chains, chains', model, part, i, r, idx);
      ShareSlot(now, idx, run);
      ShareKeeps(old(H()), H(), was, now, hash, shardBits, log, chains, chains', model, part, i, r, idx);
      part' := WithRun(old(H()), model, part, chains[i][r..]);
      chains'' := chains'[idx := chains[i][r..]];
      SharedRunIsIn(old(H()), H(), chains[i], r, IndexFn(hash, shardBits, log + 1), chains', idx);
    }

    method ShareSlot(now: nat, idx: nat, run: nat)
      requires Inv(H()) && IsSlot(H(), now, idx) && arrays[now][idx] == Null && Leads(H(), At(run)) && nodes[run].refs > 0
      modifies this`nodes, this`arrays
      ensures Shared(old(H()), H(), now, idx, run)
    {
      SetSlotShares(H(), now, idx, run);
      Acquire(At(run));
      arrays := arrays[now := arrays[now][idx := At(run)]];
      assert H() == SetSlot(old(H()), now, idx, At(run));
    }

    /** The nodes from `node` to before the run are cloned. */
    method CloneRest(was: nat, now: nat, i: nat, first: nat, run: nat, ghost chains': seq<seq<nat>>, ghost part: map<K, V>, ghost r: nat)
        returns (ghost chains'': seq<seq<nat>>, ghost part': map<K, V>)
      requires Rehashing(H(), was, now, hash, shardBits, log, chains, chains', model, part) && i < |chains|
      requires r < |chains[i]| && first == chains[i][0] && run == chains[i][r]
      requires Moved(H(), Index(), model, part, i, chains[i], 0, r)
      modifies this`nodes, this`arrays
      ensures Rehashing(H(), was, now, hash, shardBits, log, chains, chains'', model, part')
      ensures Moved(H(), Index(), model, part', i, chains[i], r, r)
      ensures OnlyArray(old(H()), H(), now) && Grows(chains', chains'')
    {
      var node := first;
      chains'', part' := chains', part;
      assert OnlyArray(H(), H(), now) by { assert forall n | 0 <= n < |nodes| :: SameItem(H(), H(), n); }
      ghost var j := 0;
      while node != run
        invariant j <= r && node == chains[i][j]
        invariant Rehashing(H(), was, now, hash, shardBits, log, chains, chains'', model, part')
        invariant Moved(H(), Index(), model, part', i, chains[i], j, r)
        invariant OnlyArray(old(H()), H(), now) && Grows(chains', chains'')
        decreases r - j
      {
        ghost var h, before := H(), chains'';
        var next;
        next, chains'', part' := CloneNode(was, now, i, node, chains'', part', j, r);
        node := next.n;
        OnlyArrayTransitively(old(H()), h, H(), now);
        GrowsTransitively(chains', before, chains'');
        j := j + 1;
      }
      assert Bucket(H(), was, Index(), model, i, chains[i]);
      SameNodeOnce(H(), was, Index(), model, i, chains[i], j, r);
    }

    /** One more bucket of array `was` is taken over. */
    method RehashNext(ghost h0: Heap<K, V>, was: nat, now: nat, i: nat, ghost chains': seq<seq<nat>>, ghost part: map<K, V>)
        returns (ghost chains'': seq<seq<nat>>, ghost part': map<K, V>)
      requires RehashedBelow(h0, H(), was, now, hash, shardBits, log, chains, chains', model, part, i) && i < |chains|
      modifies this`nodes, this`arrays
      ensures RehashedBelow(h0, H(), was, now, hash, shardBits, log, chains, chains'', model, part', i + 1)
      ensures was < |arrays| && |arrays[was]| == |chains|
    {
      ghost var h := H();
      chains'', part' := RehashBucket(was, now, i, chains', part);
      BucketRehashed(h0, h, H(), was, now, hash, shardBits, log, chains, chains', chains'', model, part', i);
    }

    /** Every bucket of array `was` is taken over into the empty array `now`. */
    method RehashBuckets(was: nat, now: nat) returns (ghost chains': seq<seq<nat>>)
      requires RehashedBelow(H(), H(), was, now, hash, shardBits, log, chains, NoChains(Pow2(log + 1)), model, map[], 0)
      modifies this`nodes, this`arrays
      ensures Rehashing(H(), was, now, hash, shardBits, log, chains, chains', model, model)
      ensures OnlyArray(old(H()), H(), now)
      ensures SharesBelow(H(), chains, |chains|, IndexFn(hash, shardBits, log + 1), chains')
    {
      ghost var part: map<K, V> := map[];
      chains' := NoChains(Pow2(log + 1));
      var i := 0;
      while i < |arrays[was]|
        invariant was < |arrays| && |arrays[was]| == |chains| && 0 <= i <= |chains|
        invariant RehashedBelow(old(H()), H(), was, now, hash, shardBits, log, chains, chains', model, part, i)
        decreases |arrays[was]| - i
      {
        chains', part := RehashNext(old(H()), was, now, i, chains', part);
        i := i + 1;
      }
      AllMoved(hash, shardBits, log, model, part);
    }

    /** The new array takes the place of the current one, which is retired. */
    method SwitchTo(now: nat, ghost chains': seq<seq<nat>>)
      requires Whole(H(), now, IndexFn(hash, shardBits, log + 1), chains', model, retired + {current})
      requires |chains'| == Pow2(log + 1) && size == |model|
      modifies this`current, this`retired, this`log, this`chains
      ensures Valid() && current == now && retired == old(retired) + {old(current)} && log == old(log) + 1 && chains == chains'
    {
      retired := retired + {current};
      current, log, chains := now, log + 1, chains';
    }

    /** rehash, as it is called: with twice the number of buckets. */
    method Rehash()
      requires Valid()
      modifies this
      ensures Valid() && model == old(model) && size == old(size) && log == old(log) + 1
      ensures Extends(old(H()), H())
      ensures retired == old(retired) + {old(current)} && current == |old(arrays)|
      ensures |arrays| == |old(arrays)| + 1 && arrays[..|old(arrays)|] == old(arrays)
      ensures SharesBelow(H(), old(chains), |old(chains)|, Index(), chains)
    {
      var was, now := current, |arrays|;
      StartRehash(H(), was, hash, shardBits, log, chains, model);
      arrays := arrays + [seq(|arrays[was]| * 2, _ => Null)];
      threshold := *;
      ghost var h := H();
      ghost var chains' := RehashBuckets(was, now);
      FinishRehash(H(), was, now, hash, shardBits, log, chains, chains', model, old(H()), h, retired);
      SwitchTo(now, chains');
    }

    // The other hash map keeps the same nodes in the same way, but copies them all when it rehashes, and always replaces.

    /** A bucket of array `was` is copied into array `now`, node by node. */
    method CopyBucket(was: nat, now: nat, i: nat, ghost chains': seq<seq<nat>>, ghost part: map<K, V>)
        returns (ghost chains'': seq<seq<nat>>, ghost part': map<K, V>)
      requires Rehashing(H(), was, now, hash, shardBits, log, chains, chains', model, part)
      requires i < |chains| && MovedBelow(Index(), model, part, i)
      modifies this`nodes, this`arrays
      ensures Rehashing(H(), was, now, hash, shardBits, log, chains, chains'', model, part')
      ensures MovedBelow(Index(), model, part', i + 1)
      ensures OnlyArray(old(H()), H(), now)
    {
      ghost var c := chains[i];
      assert Bucket(H(), was, Index(), model, i, c);
      StartBucket(H(), was, Index(), model, part, i, c);
      chains'', part' := chains', part;
      assert OnlyArray(H(), H(), now) by { assert forall n | 0 <= n < |nodes| :: SameItem(H(), H(), n); }
      var p := arrays[was][i];
      ghost var j := 0;
      while p.At?
        invariant j <= |c| && p == From(c, j)
        invariant Rehashing(H(), was, now, hash, shardBits, log, chains, chains'', model, part')
        invariant Moved(H(), Index(), model, part', i, c, j, |c|)
        invariant OnlyArray(old(H()), H(), now)
        decreases |c| - j
      {
        ghost var h := H();
        p, chains'', part' := CloneNode(was, now, i, p.n, chains'', part', j, |c|);
        OnlyArrayTransitively(old(H()), h, H(), now);
        j := j + 1;
      }
      FinishBucket(H(), was, Index(), chains, model, part', i, j, |c|);
    }

    method CopyBuckets(was: nat, now: nat) returns (ghost chains': seq<seq<nat>>)
      requires Rehashing(H(), was, now, hash, shardBits, log, chains, NoChains(Pow2(log + 1)), model, map[])
      requires MovedBelow(Index(), model, map[], 0)
      modifies this`nodes, this`arrays
      ensures Rehashing(H(), was, now, hash, shardBits, log, chains, chains', model, model)
      ensures OnlyArray(old(H()), H(), now)
    {
      ghost var part: map<K, V> := map[];
      chains' := NoChains(Pow2(log + 1));
      assert OnlyArray(H(), H(), now) by { assert forall n | 0 <= n < |nodes| :: SameItem(H(), H(), n); }
      var i := 0;
      while i < |arrays[was]|
        invariant was < |arrays| && |arrays[was]| == |chains| && 0 <= i <= |chains|
        invariant Rehashing(H(), was, now, hash, shardBits, log, chains, chains', model, part)
        invariant MovedBelow(Index(), model, part, i)
        invariant OnlyArray(old(H()), H(), now)
        decreases |arrays[was]| - i
      {
        ghost var h := H();
        chains', part := CopyBucket(was, now, i, chains', part);
        OnlyArrayTransitively(old(H()), h, H(), now);
        i := i + 1;
      }
      AllMoved(hash, shardBits, log, model, part);
    }

    /** The copying rehash: twice the number of buckets, and a copy of every node. */
    method RehashByCopying()
      requires Valid()
      modifies this
      ensures Valid() && model == old(model) && size == old(size) && log == old(log) + 1
      ensures Extends(old(H()), H())
      ensures retired == old(retired) + {old(current)} && current == |old(arrays)|
      ensures |arrays| == |old(arrays)| + 1 && arrays[..|old(arrays)|] == old(arrays)
    {
      var was, now := current, |arrays|;
      StartRehash(H(), was, hash, shardBits, log, chains, model);
      arrays := arrays + [seq(|arrays[was]| * 2, _ => Null)];
      threshold := *;
      ghost var h := H();
      ghost var chains' := CopyBuckets(was, now);
      FinishRehash(H(), was, now, hash, shardBits, log, chains, chains', model, old(H()), h, retired);
      SwitchTo(now, chains');
    }

    /** The insert that goes with it. */
    method InsertOrReplace(key: K, val: V)
      requires Valid()
      modifies this
      ensures Valid() && model == old(model)[key := val] && Extends(old(H()), H())
      ensures log == if old(size >= threshold) then old(log) + 1 else old(log)
    {
      if size >= threshold { RehashByCopying(); }
      ghost var ready := H();
      var b, node, prev;
      ghost var i;
      b, node, prev, i := Search(key);
      if node.At? { ReplaceFound(b, i, prev, node.n, key, val); } else { AddKey(b, key, val); }
      ExtendsTransitively(old(H()), ready, H());
    }

    /** A find, while nobody writes. */
    method Find(key: K) returns (found: bool, node: Ptr)
      requires Valid()
      ensures found <==> key in model
      ensures found ==> node.At? && node.n < |nodes| && nodes[node.n].key == key && nodes[node.n].val == model[key]
    {
      var b := GetIdx(current, key);
      IndexIsBelow(hash, shardBits, log, key);
      assert Bucket(H(), current, Index(), model, b, chains[b]);
      node := arrays[current][b];
      ghost var i, prev := 0, Null;
      while node.At?
        invariant Searching(chains, b, i, prev, node)
        invariant forall j | 0 <= j < i :: chains[b][j] < |nodes| && nodes[chains[b][j]].key != key
        decreases |chains[b]| - i
      {
        Found(H(), current, Index(), chains, model, b, i, prev, node);
        if nodes[node.n].key == key { return true, node; }
        prev, node, i := node, nodes[node.n].next, i + 1;
      }
      assert key in model ==> Finds(H(), Index(), chains, key);
      found := false;
    }

    /** clear: a new array of the same length, and the old one is retired. */
    method Clear()
      requires Valid()
      modifies this
      ensures Valid() && model == map[] && size == 0 && log == old(log)
      ensures retired == old(retired) + {old(current)} && Extends(old(H()), H())
    {
      ClearedKeeps(H(), current, Index(), chains, model, retired);
      arrays := arrays + [seq(|arrays[current]|, _ => Null)];
      size, retired, current := 0, retired + {current}, |arrays| - 1;
      chains, model := NoChains(|chains|), map[];
    }

    /** The destructor of a retired array: every slot lets go of its node. */
    method DestroyBuckets(a: nat)
      requires Valid() && a in retired
      modifies this`nodes, this`arrays, this`retired
      ensures Valid() && retired == old(retired) - {a} && Extends(old(H()), H()) && |nodes| == |old(nodes)|
    {
      var b := 0;
      assert OnlyArray(H(), H(), a) by { assert forall n | 0 <= n < |nodes| :: SameItem(H(), H(), n); }
      while b < |arrays[a]|
        modifies this`nodes, this`arrays
        invariant a < |arrays| && b <= |arrays[a]| && |nodes| == |old(nodes)|
        invariant Whole(H(), current, Index(), chains, model, retired)
        invariant forall d | 0 <= d < b :: arrays[a][d] == Null
        invariant OnlyArray(old(H()), H(), a)
        decreases |arrays[a]| - b
      {
        ghost var h := H();
        ClearSlotKeeps(H(), current, Index(), chains, model, retired, a, b);
        var elem := arrays[a][b];
        SlotLeads(H(), a, b);
        arrays := arrays[a := arrays[a][b := Null]];
        if elem.At? { Release(elem.n); }
        assert H() == SetSlot(h, a, b, Null);
        OnlyArrayTransitively(old(H()), h, H(), a);
        b := b + 1;
      }
      DestroyedKeeps(H(), current, Index(), chains, model, retired, a);
      retired := retired - {a};
    }

    /** The destructor of a retired node: it lets go of the node behind it. */
    method DeleteNode(n: nat)
      requires Valid() && n < |nodes| && nodes[n].refs == 0 && !nodes[n].deleted
      modifies this`nodes
      ensures Valid() && H() == Delete(old(H()), n)
    {
      DeleteKeeps(H(), current, Index(), chains, model, retired, n);
      NextLeads(H(), n);
      var next := nodes[n].next;
      nodes := nodes[n := nodes[n].(deleted := true, next := Null)];
      if next.At? { Release(next.n); }
      assert H() == Delete(old(H()), n);
    }

    /** Everything that is retired is destroyed, and then every node that nothing refers to, in any order. */
    method ReclaimAll()
      requires Valid()
      modifies this`nodes, this`arrays, this`retired
      ensures Valid() && retired == {}
      ensures forall n | 0 <= n < |nodes| :: !nodes[n].deleted <==> InSomeChain(chains, n)
      ensures forall n | 0 <= n < |nodes| :: nodes[n].refs == if InSomeChain(chains, n) then 1 else 0
    {
      while retired != {}
        invariant Valid()
        decreases retired
      {
        var a :| a in retired;
        DestroyBuckets(a);
      }
      while exists n :: 0 <= n < |nodes| && nodes[n].refs == 0 && !nodes[n].deleted
        invariant Valid() && retired == {}
        decreases |Undeleted(nodes)|
      {
        var n :| 0 <= n < |nodes| && nodes[n].refs == 0 && !nodes[n].deleted;
        ghost var h := H();
        DeleteNode(n);
        OneFewer(h, n);
      }
      forall n | 0 <= n < |nodes|
        ensures !nodes[n].deleted <==> InSomeChain(chains, n)
        ensures nodes[n].refs == if InSomeChain(chains, n) then 1 else 0
      {
        OnlyTheTableIsLeft(H(), current, Index(), chains, model, n);
      }
    }
  }

  lemma SizeWithout<K, V>(m: map<K, V>, key: K)
    requires key in m
    ensures |m - {key}| == |m| - 1
  {
    assert m == (m - {key})[key := m[key]];
  }

  lemma EmptyHeap<K, V>(h: Heap<K, V>)
    requires h.nodes == [] && forall a | 0 <= a < |h.arrays| :: Empty(h.arrays[a])
    ensures Inv(h)
  {
  }
}
