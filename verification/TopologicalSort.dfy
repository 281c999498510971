/** The two topological sorts of small_test/graph_toplogical_sort.cpp. An edge may occur several times, and a node may have an
    edge to itself. Nodes and their edges exist without the graph; only nodes that have been added to it are its vertices. */
module TopologicalSort {
  import opened Counting
  import opened Links

  /** For each node its neighbours on one side, with repetitions. */
  type Edges = seq<seq<nat>>

  ghost predicate InRange(e: Edges) { forall v, k | 0 <= v < |e| && 0 <= k < |e[v]| :: e[v][k] < |e| }

  /** Each edge occurs as often on the one side as on the other. */
  ghost predicate Mirrored(ins: Edges, outs: Edges) {
    && |ins| == |outs| && InRange(ins) && InRange(outs)
    && forall u, v | 0 <= u < |ins| && 0 <= v < |ins| :: SameEdge(ins, outs, u, v)
  }

  ghost predicate SameEdge(ins: Edges, outs: Edges, u: nat, v: nat)
    requires u < |outs| && v < |ins|
  {
    multiset(outs[u])[v] == multiset(ins[v])[u]
  }

  // ---------- What a sort is ----------

  /** Every node of the order comes after all its inputs. */
  ghost predicate InOrder(ins: Edges, s: seq<nat>) { forall i | 0 <= i < |s| :: AfterInputs(ins, s, i) }

  ghost predicate AfterInputs(ins: Edges, s: seq<nat>, i: nat)
    requires i < |s|
  {
    s[i] < |ins| && forall u | u in ins[s[i]] :: u in s[..i]
  }

  /** Each node of a cycle has the next one among its inputs, and the last one has the first. */
  ghost predicate IsCycle(ins: Edges, c: seq<nat>) {
    && c != [] && IsWalk(ins, c)
    && c[0] in ins[c[|c| - 1]]
  }

  ghost predicate IsWalk(ins: Edges, c: seq<nat>) {
    && (forall i | 0 <= i < |c| :: c[i] < |ins|)
    && forall i | 0 <= i < |c| - 1 :: GoesOn(ins, c, i)
  }

  predicate GoesOn(ins: Edges, c: seq<nat>, i: nat)
    requires i + 1 < |c|
  {
    c[i] < |ins| && c[i + 1] in ins[c[i]]
  }

  /** No vertex is on a cycle. */
  ghost predicate Acyclic(ins: Edges, verts: seq<nat>) { forall c | c != [] && c[0] in verts :: !IsCycle(ins, c) }

  /** The inputs of a vertex are vertices. */
  ghost predicate Closed(ins: Edges, verts: seq<nat>) { forall v | v in verts && v < |ins| :: InputsIn(ins, verts, v) }

  ghost predicate InputsIn(ins: Edges, s: seq<nat>, v: nat)
    requires v < |ins|
  {
    forall u | u in ins[v] :: u in s
  }

  /** A vertex that is not in the order has an input that is not either. */
  ghost predicate Stuck(ins: Edges, verts: seq<nat>, s: seq<nat>) {
    forall v | v in verts && v < |ins| && v !in s :: HasOutsider(ins, s, v)
  }

  ghost predicate HasOutsider(ins: Edges, s: seq<nat>, v: nat)
    requires v < |ins|
  {
    exists u :: u in ins[v] && u !in s
  }

  // ---------- All vertices are sorted exactly when there is no cycle ----------

  ghost function Position(s: seq<nat>, v: nat): (i: nat)
    requires v in s
    ensures i < |s| && s[i] == v
  {
    var i :| 0 <= i < |s| && s[i] == v; i
  }

  lemma InputComesBefore(ins: Edges, s: seq<nat>, v: nat, u: nat)
    requires InOrder(ins, s) && Distinct(s) && v in s && v < |ins| && u in ins[v]
    ensures u in s && Position(s, u) < Position(s, v)
  {
    var i := Position(s, v);
    assert AfterInputs(ins, s, i);
    var j :| 0 <= j < i && s[..i][j] == u;
    assert s[j] == u;
    if Position(s, u) != j { assert s[Position(s, u)] == s[j]; }
  }

  /** Along a walk against the edges, positions fall. */
  lemma {:induction false} PositionsFall(ins: Edges, s: seq<nat>, c: seq<nat>)
    requires InOrder(ins, s) && Distinct(s) && IsWalk(ins, c) && c != [] && c[0] in s
    ensures c[|c| - 1] in s && Position(s, c[|c| - 1]) <= Position(s, c[0])
  {
    if |c| > 1 {
      var init := c[..|c| - 1];
      forall i | 0 <= i < |init| - 1 ensures GoesOn(ins, init, i) { assert GoesOn(ins, c, i); }
      PositionsFall(ins, s, init);
      assert GoesOn(ins, c, |c| - 2);
      InputComesBefore(ins, s, c[|c| - 2], c[|c| - 2 + 1]);
    }
  }

  lemma SortedMeansAcyclic(ins: Edges, verts: seq<nat>, s: seq<nat>)
    requires InOrder(ins, s) && Distinct(s) && (forall v | v in verts :: v in s) && forall v | v in s :: v in verts
    ensures Closed(ins, verts) && Acyclic(ins, verts)
  {
    forall v | v in verts && v < |ins| ensures InputsIn(ins, verts, v) {
      var i := Position(s, v);
      assert AfterInputs(ins, s, i);
      forall u | u in ins[v] ensures u in verts {
        assert u in s[..i];
        assert u in s;
      }
    }
    forall c | c != [] && c[0] in verts ensures !IsCycle(ins, c) {
      if IsCycle(ins, c) {
        PositionsFall(ins, s, c);
        InputComesBefore(ins, s, c[|c| - 1], c[0]);
        assert false;
      }
    }
  }

  /** From a vertex outside the order one can walk on outside it. */
  lemma {:induction false} WalkOutside(ins: Edges, verts: seq<nat>, s: seq<nat>, v: nat, n: nat) returns (w: seq<nat>)
    requires InRange(ins) && Closed(ins, verts) && Stuck(ins, verts, s) && v < |ins| && v in verts && v !in s
    ensures |w| == n + 1 && IsWalk(ins, w) && forall i | 0 <= i < |w| :: w[i] in verts && w[i] !in s
  {
    if n == 0 {
      w := [v];
    } else {
      var init := WalkOutside(ins, verts, s, v, n - 1);
      var u := StepOutside(ins, verts, s, init[|init| - 1]);
      w := init + [u];
      LongerWalk(ins, init, u);
    }
  }

  lemma LongerWalk(ins: Edges, w: seq<nat>, u: nat)
    requires IsWalk(ins, w) && w != [] && u < |ins| && u in ins[w[|w| - 1]]
    ensures IsWalk(ins, w + [u])
  {
    forall i | 0 <= i < |w| ensures GoesOn(ins, w + [u], i) { if i < |w| - 1 { assert GoesOn(ins, w, i); } }
  }

  lemma StepOutside(ins: Edges, verts: seq<nat>, s: seq<nat>, v: nat) returns (u: nat)
    requires InRange(ins) && Closed(ins, verts) && Stuck(ins, verts, s) && v < |ins| && v in verts && v !in s
    ensures u in ins[v] && u in verts && u !in s && u < |ins|
  {
    assert HasOutsider(ins, s, v) && InputsIn(ins, verts, v);
    u :| u in ins[v] && u !in s;
    var k :| 0 <= k < |ins[v]| && ins[v][k] == u;
  }

  /** A walk that is longer than there are nodes comes back to a node. */
  lemma LongWalkRepeats(ins: Edges, w: seq<nat>) returns (i: nat, j: nat)
    requires IsWalk(ins, w) && |w| > |ins|
    ensures i < j < |w| && w[i] == w[j]
  {
    if Distinct(w) {
      var all := set k: nat | k < |w| :: w[k];
      DistinctCard(w);
      BelowCard(all, |ins|);
      assert false;
    }
    i, j :| 0 <= i < j < |w| && w[i] == w[j];
  }

  lemma {:induction false} DistinctCard(s: seq<nat>)
    requires Distinct(s)
    ensures |set k: nat | k < |s| :: s[k]| == |s|
  {
    var all := set k: nat | k < |s| :: s[k];
    if s == [] {
      assert all == {};
    } else {
      var init := s[..|s| - 1];
      DistinctCard(init);
      var some := set k: nat | k < |init| :: init[k];
      assert all == some + {s[|s| - 1]} by {
        forall v | v in all ensures v in some + {s[|s| - 1]} {
          var k: nat :| k < |s| && s[k] == v;
          if k < |init| { assert init[k] == v; }
        }
        forall v | v in some ensures v in all {
          var k: nat :| k < |init| && init[k] == v;
          assert s[k] == v;
        }
      }
    }
  }

  lemma PartIsCycle(ins: Edges, w: seq<nat>, i: nat, j: nat)
    requires IsWalk(ins, w) && i < j < |w| && w[i] == w[j]
    ensures IsCycle(ins, w[i..j])
  {
    var c := w[i..j];
    assert GoesOn(ins, w, j - 1);
    forall k | 0 <= k < |c| - 1 ensures GoesOn(ins, c, k) { assert GoesOn(ins, w, i + k); }
  }

  lemma StuckMeansCycle(ins: Edges, verts: seq<nat>, s: seq<nat>, v: nat)
    requires InRange(ins) && Closed(ins, verts) && Stuck(ins, verts, s) && v < |ins| && v in verts && v !in s
    ensures !Acyclic(ins, verts)
  {
    var w := WalkOutside(ins, verts, s, v, |ins|);
    var i, j := LongWalkRepeats(ins, w);
    PartIsCycle(ins, w, i, j);
    assert w[i..j][0] in verts;
  }

  // ---------- Both directions have the same cycles ----------

  function Backward(c: seq<nat>): seq<nat> { seq(|c|, i requires 0 <= i < |c| => c[|c| - 1 - i]) }

  lemma EdgeBothWays(ins: Edges, outs: Edges, u: nat, v: nat)
    requires Mirrored(ins, outs) && v < |ins| && u in ins[v]
    ensures u < |outs| && v in outs[u]
  {
    var k :| 0 <= k < |ins[v]| && ins[v][k] == u;
    assert SameEdge(ins, outs, u, v);
    assert u in multiset(ins[v]) && multiset(outs[u])[v] > 0;
  }

  lemma BackwardIsCycle(ins: Edges, outs: Edges, c: seq<nat>)
    requires Mirrored(ins, outs) && IsCycle(ins, c)
    ensures IsCycle(outs, Backward(c))
  {
    var b := Backward(c);
    forall i | 0 <= i < |b| - 1 ensures GoesOn(outs, b, i) {
      var j := |c| - 2 - i;
      assert GoesOn(ins, c, j) && b[i] == c[j + 1] && b[i + 1] == c[j];
      EdgeBothWays(ins, outs, c[j + 1], c[j]);
    }
    EdgeBothWays(ins, outs, c[0], c[|c| - 1]);
  }

  /** A walk from a vertex stays among the vertices. */
  lemma {:induction false} WalkStays(ins: Edges, verts: seq<nat>, c: seq<nat>)
    requires Closed(ins, verts) && IsWalk(ins, c) && c != [] && c[0] in verts
    ensures c[|c| - 1] in verts
  {
    if |c| > 1 {
      var init := c[..|c| - 1];
      forall i | 0 <= i < |init| - 1 ensures GoesOn(ins, init, i) { assert GoesOn(ins, c, i); }
      WalkStays(ins, verts, init);
      assert GoesOn(ins, c, |c| - 2) && InputsIn(ins, verts, c[|c| - 2]);
    }
  }

  /** If no edge leaves the vertices, there is a cycle along the inputs exactly if there is one along the outputs. */
  lemma SameCyclesBothWays(ins: Edges, outs: Edges, verts: seq<nat>)
    requires Mirrored(ins, outs) && Closed(ins, verts) && Closed(outs, verts)
    ensures Acyclic(ins, verts) <==> Acyclic(outs, verts)
  {
    MirroredTwice(ins, outs);
    if !Acyclic(ins, verts) {
      var c :| c != [] && c[0] in verts && IsCycle(ins, c);
      WalkStays(ins, verts, c);
      BackwardIsCycle(ins, outs, c);
    }
    if !Acyclic(outs, verts) {
      var c :| c != [] && c[0] in verts && IsCycle(outs, c);
      WalkStays(outs, verts, c);
      BackwardIsCycle(outs, ins, c);
    }
  }

  // ---------- Counting the inputs that are left ----------

  /** How many of `s` are not in `done`. */
  function CountOutside(s: seq<nat>, done: set<nat>): nat {
    if s == [] then 0 else CountOutside(s[..|s| - 1], done) + (if s[|s| - 1] in done then 0 else 1)
  }

  lemma {:induction false} OutsideAll(s: seq<nat>)
    ensures CountOutside(s, {}) == |s|
  {
    if s != [] { OutsideAll(s[..|s| - 1]); }
  }

  lemma {:induction false} OneMoreDone(s: seq<nat>, done: set<nat>, x: nat)
    requires x !in done
    ensures CountOutside(s, done) == CountOutside(s, done + {x}) + multiset(s)[x]
  {
    if s != [] {
      var init := s[..|s| - 1];
      OneMoreDone(init, done, x);
      assert s == init + [s[|s| - 1]];
    }
  }

  lemma {:induction false} OutsideIsZero(s: seq<nat>, done: set<nat>)
    ensures CountOutside(s, done) == 0 <==> forall u | u in s :: u in done
  {
    if s != [] {
      OutsideIsZero(s[..|s| - 1], done);
      assert s == s[..|s| - 1] + [s[|s| - 1]];
    }
  }

  // ---------- The loop ----------

  function DoneSet(sorted: seq<nat>, n: nat): set<nat>
    requires n <= |sorted|
  {
    var done := sorted[..n];
    set u | u in done
  }

  /** The sort has dealt with the first `i` nodes of `sorted`. */
  ghost predicate Sorting(ins: Edges, outs: Edges, verts: seq<nat>, deps: seq<int>, sorted: seq<nat>, i: nat) {
    && |deps| == |ins| == |outs| && i <= |sorted|
    && (forall v | 0 <= v < |ins| && v in verts :: Counts(ins, deps, DoneSet(sorted, i), v))
    && (forall v | 0 <= v < |ins| :: IsQueued(verts, deps, sorted, v))
    && InOrder(ins, sorted)
    && Distinct(sorted)
  }

  ghost predicate Counts(ins: Edges, deps: seq<int>, done: set<nat>, v: nat)
    requires |deps| == |ins| && v < |ins|
  {
    deps[v] == CountOutside(ins[v], done)
  }

  /** A vertex is in the order once nothing it depends on is left; any other node never is, as nobody has set its count. */
  predicate IsQueued(verts: seq<nat>, deps: seq<int>, sorted: seq<nat>, v: nat)
    requires v < |deps|
  {
    if v in verts then deps[v] >= 0 && (v in sorted <==> deps[v] == 0) else deps[v] <= 0 && v !in sorted
  }

  /** The same while the edges of node `cur` are being taken away: `j` of them have been. */
  ghost predicate Taking(ins: Edges, outs: Edges, verts: seq<nat>, deps: seq<int>, sorted: seq<nat>, i: nat, cur: nat, j: nat) {
    && |deps| == |ins| == |outs| && i < |sorted| && cur == sorted[i] && cur < |outs| && j <= |outs[cur]|
    && AllCountWithin(ins, outs, verts, deps, DoneSet(sorted, i + 1), cur, j)
    && (forall v | 0 <= v < |ins| :: IsQueued(verts, deps, sorted, v))
    && InOrder(ins, sorted)
    && Distinct(sorted)
  }

  ghost predicate AllCountWithin(ins: Edges, outs: Edges, verts: seq<nat>, deps: seq<int>, done: set<nat>, cur: nat, j: nat)
    requires |deps| == |ins| && cur < |outs| && j <= |outs[cur]|
  {
    forall v | 0 <= v < |ins| && v in verts :: CountsWithin(ins, outs, deps, done, cur, j, v)
  }

  ghost predicate CountsWithin(ins: Edges, outs: Edges, deps: seq<int>, done: set<nat>, cur: nat, j: nat, v: nat)
    requires |deps| == |ins| && v < |ins| && cur < |outs| && j <= |outs[cur]|
  {
    deps[v] == CountOutside(ins[v], done) + multiset(outs[cur][j..])[v]
  }

  lemma StartTaking(ins: Edges, outs: Edges, verts: seq<nat>, deps: seq<int>, sorted: seq<nat>, i: nat)
    requires Mirrored(ins, outs) && Sorting(ins, outs, verts, deps, sorted, i) && i < |sorted|
    ensures sorted[i] < |outs| && Taking(ins, outs, verts, deps, sorted, i, sorted[i], 0)
  {
    var cur := sorted[i];
    assert AfterInputs(ins, sorted, i);
    assert outs[cur][0..] == outs[cur];
    assert cur !in DoneSet(sorted, i);
    assert DoneSet(sorted, i + 1) == DoneSet(sorted, i) + {cur};
    var done := DoneSet(sorted, i + 1);
    forall v | 0 <= v < |ins| && v in verts ensures CountsWithin(ins, outs, deps, done, cur, 0, v) {
      assert Counts(ins, deps, DoneSet(sorted, i), v) && SameEdge(ins, outs, cur, v);
      OneMoreDone(ins[v], DoneSet(sorted, i), cur);
    }
  }

  lemma FinishTaking(ins: Edges, outs: Edges, verts: seq<nat>, deps: seq<int>, sorted: seq<nat>, i: nat, cur: nat)
    requires cur < |outs| && Taking(ins, outs, verts, deps, sorted, i, cur, |outs[cur]|)
    ensures Sorting(ins, outs, verts, deps, sorted, i + 1)
  {
    assert outs[cur][|outs[cur]|..] == [];
    var done := DoneSet(sorted, i + 1);
    forall v | 0 <= v < |ins| && v in verts ensures Counts(ins, deps, done, v) {
      assert CountsWithin(ins, outs, deps, done, cur, |outs[cur]|, v);
    }
  }

  /** One edge is taken away; its end may have become ready. */
  lemma TakeEdge(ins: Edges, outs: Edges, verts: seq<nat>, deps: seq<int>, sorted: seq<nat>, i: nat, cur: nat, j: nat)
    requires Mirrored(ins, outs) && Taking(ins, outs, verts, deps, sorted, i, cur, j) && j < |outs[cur]|
    ensures outs[cur][j] < |deps|
    ensures var o := outs[cur][j]; var deps' := deps[o := deps[o] - 1];
      Taking(ins, outs, verts, deps', if deps'[o] == 0 then sorted + [o] else sorted, i, cur, j + 1)
  {
    var o := outs[cur][j];
    var deps' := deps[o := deps[o] - 1];
    var sorted' := if deps'[o] == 0 then sorted + [o] else sorted;
    var done := DoneSet(sorted, i + 1);
    assert sorted'[..i + 1] == sorted[..i + 1] && DoneSet(sorted', i + 1) == done;
    CountsFall(ins, outs, verts, deps, done, cur, j);
    assert IsQueued(verts, deps, sorted, o);
    forall v | 0 <= v < |ins| ensures IsQueued(verts, deps', sorted', v) { assert IsQueued(verts, deps, sorted, v); }
    if deps'[o] == 0 {
      assert CountsWithin(ins, outs, deps', done, cur, j + 1, o);
      NothingLeft(ins, outs, deps', sorted, i, cur, j + 1, o);
      AppendInOrder(ins, sorted, o);
    }
  }

  lemma CountsFall(ins: Edges, outs: Edges, verts: seq<nat>, deps: seq<int>, done: set<nat>, cur: nat, j: nat)
    requires |deps| == |ins| && cur < |outs| && j < |outs[cur]| && outs[cur][j] < |ins|
    requires AllCountWithin(ins, outs, verts, deps, done, cur, j)
    ensures outs[cur][j] in verts ==> deps[outs[cur][j]] > 0
    ensures AllCountWithin(ins, outs, verts, deps[outs[cur][j] := deps[outs[cur][j]] - 1], done, cur, j + 1)
  {
    var o := outs[cur][j];
    assert outs[cur][j..] == [o] + outs[cur][j + 1..];
    if o in verts { assert CountsWithin(ins, outs, deps, done, cur, j, o); }
    var deps', next := deps[o := deps[o] - 1], j + 1;
    forall v | 0 <= v < |ins| && v in verts ensures CountsWithin(ins, outs, deps', done, cur, next, v) {
      assert CountsWithin(ins, outs, deps, done, cur, j, v);
    }
  }

  lemma AppendInOrder(ins: Edges, sorted: seq<nat>, o: nat)
    requires InOrder(ins, sorted) && Distinct(sorted) && o !in sorted && o < |ins| && forall u | u in ins[o] :: u in sorted
    ensures InOrder(ins, sorted + [o]) && Distinct(sorted + [o])
  {
    var sorted' := sorted + [o];
    forall k | 0 <= k < |sorted'| ensures AfterInputs(ins, sorted', k) {
      if k < |sorted| { assert AfterInputs(ins, sorted, k) && sorted'[..k] == sorted[..k]; } else { assert sorted'[..k] == sorted; }
    }
  }

  lemma NothingLeft(ins: Edges, outs: Edges, deps: seq<int>, sorted: seq<nat>, i: nat, cur: nat, j: nat, o: nat)
    requires |deps| == |ins| && o < |ins| && cur < |outs| && j <= |outs[cur]| && i < |sorted|
    requires CountsWithin(ins, outs, deps, DoneSet(sorted, i + 1), cur, j, o) && deps[o] == 0
    ensures forall u | u in ins[o] :: u in sorted
  {
    OutsideIsZero(ins[o], DoneSet(sorted, i + 1));
  }

  lemma SortingEnds(ins: Edges, outs: Edges, verts: seq<nat>, deps: seq<int>, sorted: seq<nat>)
    requires Sorting(ins, outs, verts, deps, sorted, |sorted|)
    ensures Stuck(ins, verts, sorted)
  {
    assert sorted[..|sorted|] == sorted;
    forall v | v in verts && v < |ins| && v !in sorted ensures HasOutsider(ins, sorted, v) {
      assert Counts(ins, deps, DoneSet(sorted, |sorted|), v) && IsQueued(verts, deps, sorted, v);
      OutsideIsZero(ins[v], DoneSet(sorted, |sorted|));
    }
  }

  /** What a sort promises: vertices only, each at most once, and after all its inputs; all of them if and only if no vertex is on a
      cycle or has an input that is not a vertex. */
  ghost predicate IsTopologicalSort(ins: Edges, verts: seq<nat>, sorted: seq<nat>) {
    && InOrder(ins, sorted) && Distinct(sorted) && (forall v | v in sorted :: v in verts)
    && ((forall v | v in verts :: v in sorted) <==> Closed(ins, verts) && Acyclic(ins, verts))
  }

  class Graph {
    var vertexs: seq<nat>
    var inputs: Edges     // of all nodes that there are, whether they are vertices or not
    var outputs: Edges
    var deps: seq<int>

    ghost predicate Valid()
      reads this
    {
      && Mirrored(inputs, outputs) && |deps| == |inputs|
      && (forall v | v in vertexs :: v < |inputs|)
      && forall v | 0 <= v < |deps| && v !in vertexs :: deps[v] <= 0
    }

    constructor ()
      ensures Valid() && vertexs == [] && inputs == []
    {
      vertexs, inputs, outputs, deps := [], [], [], [];
    }

    /** A node without edges, not yet a vertex. */
    method NewNode() returns (v: nat)
      requires Valid()
      modifies this`inputs, this`outputs, this`deps
      ensures Valid() && v == |old(inputs)| && inputs == old(inputs) + [[]] && outputs == old(outputs) + [[]]
    {
      v := |inputs|;
      inputs, outputs, deps := inputs + [[]], outputs + [[]], deps + [0];
      forall a, b | 0 <= a < |inputs| && 0 <= b < |inputs| ensures SameEdge(inputs, outputs, a, b) {
        if a < v && b < v { assert SameEdge(old(inputs), old(outputs), a, b); }
      }
    }

    /** An edge between any two nodes. */
    method AddOutput(u: nat, v: nat)
      requires Valid() && u < |inputs| && v < |inputs|
      modifies this`inputs, this`outputs
      ensures Valid() && |inputs| == |old(inputs)|
      ensures inputs == old(inputs)[v := old(inputs)[v] + [u]] && outputs == old(outputs)[u := old(outputs)[u] + [v]]
    {
      outputs := outputs[u := outputs[u] + [v]];
      inputs := inputs[v := inputs[v] + [u]];
      forall a, b | 0 <= a < |inputs| && 0 <= b < |inputs| ensures SameEdge(inputs, outputs, a, b) {
        assert SameEdge(old(inputs), old(outputs), a, b);
      }
    }

    /** Nobody checks whether the node is a vertex already. */
    method AddVertex(v: nat)
      requires Valid() && v < |inputs|
      modifies this`vertexs
      ensures Valid() && vertexs == old(vertexs) + [v]
    {
      vertexs := vertexs + [v];
    }

    /** toplogical_sort_forward: a node waits for its inputs. */
    method SortForward() returns (sorted: seq<nat>)
      requires Valid()
      modifies this`deps
      ensures Valid()
      ensures if SourcesOnce(inputs, vertexs) then IsTopologicalSort(inputs, vertexs, sorted) else !Distinct(sorted)
    {
      sorted := Sort(inputs, outputs);
    }

    /** toplogical_sort_backward: the same loops with the sides exchanged; a node waits for its outputs. */
    method SortBackward() returns (sorted: seq<nat>)
      requires Valid()
      modifies this`deps
      ensures Valid()
      ensures if SourcesOnce(outputs, vertexs) then IsTopologicalSort(outputs, vertexs, sorted) else !Distinct(sorted)
      ensures SourcesOnce(outputs, vertexs) && Closed(inputs, vertexs) && Closed(outputs, vertexs) ==>
        ((forall v | v in vertexs :: v in sorted) <==> Acyclic(inputs, vertexs))
    {
      MirroredTwice(inputs, outputs);
      if Closed(inputs, vertexs) && Closed(outputs, vertexs) { SameCyclesBothWays(inputs, outputs, vertexs); }
      sorted := Sort(outputs, inputs);
    }

    /** The first loop: the vertices without inputs are queued. */
    method QueueSources(ins: Edges, outs: Edges) returns (sorted: seq<nat>)
      requires Valid() && |deps| == |ins| == |outs|
      modifies this`deps
      ensures Valid() && sorted == Sources(ins, vertexs)
      ensures SourcesOnce(ins, vertexs) ==> Sorting(ins, outs, vertexs, deps, sorted, 0)
    {
      sorted := [];
      var k := 0;
      while k < |vertexs|
        invariant k <= |vertexs| && Queueing(ins, vertexs, k, deps, sorted)
      {
        QueueOne(ins, vertexs, k, deps, sorted);
        var node := vertexs[k];
        deps := deps[node := |ins[node]|];
        if deps[node] == 0 { sorted := sorted + [node]; }
        k := k + 1;
      }
      assert vertexs[..k] == vertexs;
      if SourcesOnce(ins, vertexs) { StartSorting(ins, outs, vertexs, deps); }
    }

    /** The inner loop: the edges of the next node of the order are taken away. */
    method TakeEdges(ins: Edges, outs: Edges, order: seq<nat>, i: nat, ghost sources: seq<nat>) returns (sorted: seq<nat>)
      requires Mirrored(ins, outs) && i < |order| && Grown(ins, deps, sources, order)
      modifies this`deps
      ensures i < |sorted| && Grown(ins, deps, sources, sorted) && NotAbove(old(deps), deps)
      ensures old(Sorting(ins, outs, vertexs, deps, order, i)) ==> Sorting(ins, outs, vertexs, deps, sorted, i + 1)
    {
      ghost var start, once := deps, Sorting(ins, outs, vertexs, deps, order, i);
      if once { StartTaking(ins, outs, vertexs, deps, order, i); }
      sorted := order;
      EdgesInRange(outs, order[i]);
      var node, j := order[i], 0;
      while j < |outs[node]|
        invariant j <= |outs[node]| && |deps| == |ins|
        invariant Inner(ins, outs, vertexs, start, deps, sources, order, sorted, i, j, once)
      {
        ghost var before, shorter := deps, sorted;
        var o := outs[node][j];
        deps := deps[o := deps[o] - 1];
        if deps[o] == 0 { sorted := sorted + [o]; }
        InnerStep(ins, outs, vertexs, start, before, deps, sources, order, shorter, sorted, i, j, once);
        j := j + 1;
      }
      if once { FinishTaking(ins, outs, vertexs, deps, sorted, i, node); }
    }

    method Sort(ins: Edges, outs: Edges) returns (sorted: seq<nat>)
      requires Valid() && Mirrored(ins, outs) && |deps| == |ins|
      modifies this`deps
      ensures Valid()
      ensures if SourcesOnce(ins, vertexs) then IsTopologicalSort(ins, vertexs, sorted) else !Distinct(sorted)
    {
      sorted := QueueSources(ins, outs);
      ghost var sources, once := sorted, SourcesOnce(ins, vertexs);
      SourcesInRange(ins, vertexs);
      var i := 0;
      while i < |sorted|
        invariant i <= |sorted| && Grown(ins, deps, sources, sorted)
        invariant forall v | 0 <= v < |deps| && v !in vertexs :: deps[v] <= 0
        invariant once ==> Sorting(ins, outs, vertexs, deps, sorted, i)
        decreases |sources| + |ins| - i
      {
        sorted := TakeEdges(ins, outs, sorted, i, sources);
        i := i + 1;
        FewEnough(ins, deps, sources, sorted);
      }
      if once { SortedIsTopological(ins, outs, vertexs, deps, sorted); } else { TwiceFromTheStart(ins, vertexs, sorted); }
    }
  }

  /** The vertices without inputs, as often as they have been added. */
  function Sources(ins: Edges, verts: seq<nat>): seq<nat> {
    if verts == [] then []
    else
      var v := verts[|verts| - 1];
      Sources(ins, verts[..|verts| - 1]) + (if v < |ins| && ins[v] == [] then [v] else [])
  }

  /** No vertex without inputs has been added twice. */
  ghost predicate SourcesOnce(ins: Edges, verts: seq<nat>) { Distinct(Sources(ins, verts)) }

  lemma {:induction false} SourcesAre(ins: Edges, verts: seq<nat>, v: nat)
    ensures v in Sources(ins, verts) <==> v in verts && v < |ins| && ins[v] == []
  {
    if verts != [] {
      SourcesAre(ins, verts[..|verts| - 1], v);
      assert verts == verts[..|verts| - 1] + [verts[|verts| - 1]];
    }
  }

  lemma SourcesInRange(ins: Edges, verts: seq<nat>)
    ensures forall k | 0 <= k < |Sources(ins, verts)| :: Sources(ins, verts)[k] < |ins|
  {
    forall k | 0 <= k < |Sources(ins, verts)| ensures Sources(ins, verts)[k] < |ins| {
      SourcesAre(ins, verts, Sources(ins, verts)[k]);
    }
  }

  lemma TwiceFromTheStart(ins: Edges, verts: seq<nat>, sorted: seq<nat>)
    requires Sources(ins, verts) <= sorted && !SourcesOnce(ins, verts)
    ensures !Distinct(sorted)
  {
    var i, j :| 0 <= i < j < |Sources(ins, verts)| && Sources(ins, verts)[i] == Sources(ins, verts)[j];
    assert sorted[i] == sorted[j];
  }

  /** The order goes on from the sources with nodes whose counts have come down to zero, each once. */
  ghost predicate Grown(ins: Edges, deps: seq<int>, sources: seq<nat>, sorted: seq<nat>) {
    && |deps| == |ins| && sources <= sorted
    && (forall k | 0 <= k < |sorted| :: sorted[k] < |ins|)
    && Distinct(sorted[|sources|..])
    && forall k | |sources| <= k < |sorted| :: deps[sorted[k]] <= 0
  }

  /** It has gone on from `order`, and no count has gone up since `start`. */
  ghost predicate Growing(ins: Edges, start: seq<int>, deps: seq<int>, sources: seq<nat>, order: seq<nat>, sorted: seq<nat>) {
    Grown(ins, deps, sources, sorted) && NotAbove(start, deps) && |order| <= |sorted|
  }

  lemma GrowsByOne(ins: Edges, start: seq<int>, deps: seq<int>, sources: seq<nat>, order: seq<nat>, sorted: seq<nat>, o: nat)
    requires Growing(ins, start, deps, sources, order, sorted) && o < |ins|
    ensures var deps' := deps[o := deps[o] - 1];
      Growing(ins, start, deps', sources, order, if deps'[o] == 0 then sorted + [o] else sorted)
  {
    var added := sorted[|sources|..];
    if deps[o] == 1 {
      assert (sorted + [o])[|sources|..] == added + [o];
      forall k | 0 <= k < |added| ensures added[k] != o { assert added[k] == sorted[|sources| + k]; }
    }
  }

  /** The inner loop, whether or not a source is among the vertices twice. */
  ghost predicate Inner(ins: Edges, outs: Edges, verts: seq<nat>, start: seq<int>, deps: seq<int>, sources: seq<nat>,
      order: seq<nat>, sorted: seq<nat>, i: nat, j: nat, once: bool) {
    && i < |order| && order[i] < |outs| && j <= |outs[order[i]]|
    && Growing(ins, start, deps, sources, order, sorted)
    && (once ==> Taking(ins, outs, verts, deps, sorted, i, order[i], j))
  }

  lemma EdgesInRange(outs: Edges, v: nat)
    requires InRange(outs) && v < |outs|
    ensures forall j | 0 <= j < |outs[v]| :: outs[v][j] < |outs|
  {
  }

  lemma InnerStep(ins: Edges, outs: Edges, verts: seq<nat>, start: seq<int>, deps: seq<int>, deps': seq<int>, sources: seq<nat>,
      order: seq<nat>, sorted: seq<nat>, sorted': seq<nat>, i: nat, j: nat, once: bool)
    requires Mirrored(ins, outs) && Inner(ins, outs, verts, start, deps, sources, order, sorted, i, j, once) && j < |outs[order[i]]|
    requires var o := outs[order[i]][j];
      o < |deps| && deps' == deps[o := deps[o] - 1] && sorted' == if deps'[o] == 0 then sorted + [o] else sorted
    ensures Inner(ins, outs, verts, start, deps', sources, order, sorted', i, j + 1, once)
  {
    GrowsByOne(ins, start, deps, sources, order, sorted, outs[order[i]][j]);
    if once { TakeEdge(ins, outs, verts, deps, sorted, i, order[i], j); }
  }

  /** No count has gone up. */
  ghost predicate NotAbove(before: seq<int>, deps: seq<int>) {
    |deps| == |before| && forall v | 0 <= v < |deps| :: deps[v] <= before[v]
  }

  /** The first loop has looked at `k` vertices. */
  ghost predicate Queueing(ins: Edges, verts: seq<nat>, k: nat, deps: seq<int>, sorted: seq<nat>) {
    && k <= |verts| && |deps| == |ins| && (forall v | v in verts :: v < |ins|)
    && (forall v | 0 <= v < |deps| && v !in verts :: deps[v] <= 0)
    && sorted == Sources(ins, verts[..k]) && Counted(ins, verts[..k], deps)
  }

  lemma QueueOne(ins: Edges, verts: seq<nat>, k: nat, deps: seq<int>, sorted: seq<nat>)
    requires Queueing(ins, verts, k, deps, sorted) && k < |verts|
    ensures verts[k] < |ins|
    ensures var v := verts[k];
      Queueing(ins, verts, k + 1, deps[v := |ins[v]|], if ins[v] == [] then sorted + [v] else sorted)
  {
    assert verts[k] in verts;
    assert verts[..k + 1] == verts[..k] + [verts[k]];
    assert verts[..k + 1][..k] == verts[..k];
  }

  /** The first loop has looked at the nodes `seen`. */
  ghost predicate Counted(ins: Edges, seen: seq<nat>, deps: seq<int>)
    requires |deps| == |ins|
  {
    forall u | u in seen && u < |ins| :: deps[u] == |ins[u]|
  }

  lemma StartSorting(ins: Edges, outs: Edges, verts: seq<nat>, deps: seq<int>)
    requires |deps| == |ins| == |outs| && Counted(ins, verts, deps) && SourcesOnce(ins, verts)
    requires forall v | 0 <= v < |deps| && v !in verts :: deps[v] <= 0
    ensures Sorting(ins, outs, verts, deps, Sources(ins, verts), 0)
  {
    var sorted := Sources(ins, verts);
    forall v | 0 <= v < |ins| ensures IsQueued(verts, deps, sorted, v) { SourcesAre(ins, verts, v); }
    forall v | 0 <= v < |ins| && v in verts ensures Counts(ins, deps, DoneSet(sorted, 0), v) {
      OutsideAll(ins[v]);
      assert DoneSet(sorted, 0) == {};
    }
    forall k | 0 <= k < |sorted| ensures AfterInputs(ins, sorted, k) { SourcesAre(ins, verts, sorted[k]); }
  }

  lemma MirroredTwice(ins: Edges, outs: Edges)
    requires Mirrored(ins, outs)
    ensures Mirrored(outs, ins)
  {
    forall u, v | 0 <= u < |ins| && 0 <= v < |ins| ensures SameEdge(outs, ins, u, v) { assert SameEdge(ins, outs, v, u); }
  }

  lemma FewEnough(ins: Edges, deps: seq<int>, sources: seq<nat>, sorted: seq<nat>)
    requires Grown(ins, deps, sources, sorted)
    ensures |sorted| <= |sources| + |ins|
  {
    var added := sorted[|sources|..];
    forall k | 0 <= k < |added| ensures added[k] < |ins| { assert added[k] == sorted[|sources| + k]; }
    DistinctCard(added);
    BelowCard(set k: nat | k < |added| :: added[k], |ins|);
  }

  lemma SortedIsTopological(ins: Edges, outs: Edges, verts: seq<nat>, deps: seq<int>, sorted: seq<nat>)
    requires Mirrored(ins, outs) && Sorting(ins, outs, verts, deps, sorted, |sorted|) && forall v | v in verts :: v < |ins|
    ensures IsTopologicalSort(ins, verts, sorted)
  {
    SortingEnds(ins, outs, verts, deps, sorted);
    forall v | v in sorted ensures v in verts {
      var k :| 0 <= k < |sorted| && sorted[k] == v;
      assert AfterInputs(ins, sorted, k);
      assert IsQueued(verts, deps, sorted, v);
    }
    if forall v | v in verts :: v in sorted {
      SortedMeansAcyclic(ins, verts, sorted);
    } else if Closed(ins, verts) {
      var v :| v in verts && v !in sorted;
      StuckMeansCycle(ins, verts, sorted, v);
    }
  }

  /** A vertex that is added twice is sorted twice if it has no inputs. */
  method AddedTwice() returns (graph: Graph, sorted: seq<nat>)
    ensures graph.Valid() && !Distinct(sorted)
  {
    graph := new Graph();
    var v := graph.NewNode();
    graph.AddVertex(v);
    graph.AddVertex(v);
    assert Sources(graph.inputs, [v]) == [v];
    assert Sources(graph.inputs, [v, v]) == [v, v] by { assert [v, v][..1] == [v]; }
    assert !SourcesOnce(graph.inputs, graph.vertexs) by { assert !Differ([v, v], 0, 1); }
    sorted := graph.SortForward();
  }
}
