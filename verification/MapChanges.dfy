/** What the writers of MapWriters do to the map: which cell each store changes and what it leads to then, and what an insertion, a
    replacement or an erasure that nobody interferes with comes to. */
module MapChanges {
  import opened HazardGraph
  import opened Links
  import opened MapWriters
  import opened Runs

  /** Of all cells of the segment and of linked objects, only `at` changes, and leads to `p` from then on. */
  ghost predicate OnlyChanges(g: State, g': State, at: Cell, p: Ptr) {
    && InGraph(g, at) && |g'.objs| >= |g.objs|
    && forall i | 0 <= i < |g.objs| && Live(g, i) ::
         g'.objs[i].cells == if i == at.o then g.objs[i].cells[at.c := p] else g.objs[i].cells
  }

  // ---------- What each store changes ----------

  /** A store that erases makes the cell lead past the node; one that replaces makes it lead to the new node, which leads where
      the old one did. The old node is left to be released. */
  lemma StoreNextChanges(g: State, w: nat, worker: Worker)
    requires Ready(g, w, worker, StoreNext)
    ensures var g', m, at := Graph(g, w, worker, StoreNext), worker.pc.m, Last(worker.pc.path);
      && Leads(g, at) && IsCell(g, Content(g, at).n, 0)
      && var n := Content(g, at).n;
         && OnlyChanges(g, g', at, if m.At? then m else g.objs[n].cells[0])
         && (m.At? ==> Live(g', m.n) && g'.objs[m.n].cells == [g.objs[n].cells[0]])
         && WorkerAfter(g, worker, StoreNext).pending == worker.pending + multiset{n}
  {
    var pc, at := worker.pc, Last(worker.pc.path);
    EndOfPath(g, pc.path);
    AfterStore(g, w, at.o, at.c, if pc.m.At? then pc.m else pc.job.next, if pc.m.At? then pc.m.n else |g.objs|,
               worker.pending + multiset{pc.job.node});
  }

  /** A store that inserts puts the new node in front of what the bucket led to. */
  lemma StoreHeadChanges(g: State, w: nat, worker: Worker)
    requires Ready(g, w, worker, StoreHead)
    ensures var g', m, at := Graph(g, w, worker, StoreHead), worker.pc.m, Last(worker.pc.path);
      && m.At? && OnlyChanges(g, g', at, m)
      && Live(g', m.n) && g'.objs[m.n].cells == [Content(g, at)]
      && WorkerAfter(g, worker, StoreHead).pending == worker.pending
  {
    var pc, at := worker.pc, Last(worker.pc.path);
    EndOfPath(g, pc.path);
    AfterStore(g, w, at.o, at.c, pc.m, pc.m.n, worker.pending);
  }

  /** A store that publishes an array makes the segment lead to it, as it has been filled. */
  lemma PublishChanges(g: State, w: nat, worker: Worker, a: Action)
    requires Ready(g, w, worker, a) && (a.PublishTable? || a.StoreEmpty?)
    ensures var g', table := Graph(g, w, worker, a), worker.pc.job.table;
      OnlyChanges(g, g', ROOT, At(table)) && Live(g', table) && table < |g.objs| && g'.objs[table].cells == g.objs[table].cells
  {
    var was := if a.PublishTable? then Content(g, ROOT).n else worker.pc.job.was;
    AfterStore(g, w, 0, 0, At(worker.pc.job.table), worker.pc.job.table, worker.pending + Ref(worker.pc.m) + multiset{was});
    assert CountInv(g, 0);
  }

  /** While a new array is filled, a clone goes in front of what its bucket led to, and a run becomes what its bucket leads to. */
  lemma FillChanges(g: State, w: nat, worker: Worker, a: Action)
    requires Ready(g, w, worker, a) && (a.PutClone? || a.PutRun?)
    ensures var g', job := Graph(g, w, worker, a), worker.pc.job;
      && IsCell(g, job.table, job.c) && |g'.objs| == |g.objs|
      && (a.PutRun? ==> g.objs[job.table].cells[job.c] == Null)
      && (a.PutClone? ==> job.node < |g.objs| && g.objs[job.node].cells == [g.objs[job.table].cells[job.c]] == g'.objs[job.node].cells)
      && g'.objs[job.table].cells == g.objs[job.table].cells[job.c := At(if a.PutClone? then job.node else job.run)]
  {
  }

  /** No other step under the lock changes a cell that anybody can come to. */
  lemma OthersChangeNothing(g: State, w: nat, worker: Worker, a: Action)
    requires Ready(g, w, worker, a) && !Stores(a)
    ensures SameCells(g, Graph(g, w, worker, a))
  {
    if !a.Leave? { LockedLeavesOthers(g, w, worker, a, w + 1); }
  }

  /** Nor does one without the lock. */
  lemma OutsideChangesNothing(s: Map, w: nat, a: Action)
    requires MapInv(s) && Enabled(s, w, a) && Outside(a)
    ensures SameCells(s.graph, Apply(s, w, a).graph)
  {
    assert WriterInv(s.graph, w, s.workers[w]);
  }

  // ---------- Writers that nobody interferes with ----------

  ghost predicate ActsAlone(s: Map, s': Map, w: nat) {
    exists a :: Enabled(s, w, a) && !IsStale(s.graph, s.workers[w].pc, a) && s' == Apply(s, w, a)
  }

  /** In `run` nobody but writer `w` takes a step. */
  ghost predicate WritesAlone(run: seq<Map>, w: nat) {
    |run| > 0 && forall n | 0 < n < |run| :: ActsAlone(run[n - 1], run[n], w)
  }

  lemma Take(s: Map, w: nat, a: Action) returns (s': Map)
    requires Enabled(s, w, a) && !a.StoreEmpty?
    ensures s' == Apply(s, w, a) && ActsAlone(s, s', w)
  {
    s' := Apply(s, w, a);
  }

  lemma GoOn(run: seq<Map>, rest: seq<Map>, w: nat)
    requires WritesAlone(run, w) && WritesAlone(rest, w) && run[|run| - 1] == rest[0]
    ensures WritesAlone(run + rest[1..], w) && (run + rest[1..])[|run + rest[1..]| - 1] == rest[|rest| - 1]
  {
    Joined((s, s') => ActsAlone(s, s', w), run, rest);
  }

  lemma {:induction false} AloneKeepsInv(run: seq<Map>, w: nat)
    requires WritesAlone(run, w) && MapInv(run[0])
    ensures MapInv(run[|run| - 1])
  {
    if |run| > 1 {
      AloneKeepsInv(run[..|run| - 1], w);
      ActKeepsInv(run[|run| - 2], run[|run| - 1], w);
    }
  }

  lemma ActKeepsInv(s: Map, s': Map, w: nat)
    requires MapInv(s) && ActsAlone(s, s', w)
    ensures MapInv(s')
  {
    var a :| Enabled(s, w, a) && !IsStale(s.graph, s.workers[w].pc, a) && s' == Apply(s, w, a);
    WriteKeepsInv(s, w, a);
  }

  /** Writer `w` has the lock, has walked to the end of `path` and is about to do `job`. */
  ghost predicate Stands(s: Map, w: nat, m: Ptr, path: seq<Cell>, job: Job, pending: multiset<nat>) {
    w < |s.workers| == |s.graph.holds| && s.workers[w] == Worker(In(m, path, job), pending)
  }

  lemma WalkOn(s: Map, w: nat, m: Ptr, path: seq<Cell>, k: nat, pending: multiset<nat>) returns (s': Map)
    requires IsPath(s.graph, path) && 0 < k < |path| && Stands(s, w, m, path[..k], Looking, pending)
    ensures ActsAlone(s, s', w) && Stands(s', w, m, path[..k + 1], Looking, pending)
    ensures s'.graph == s.graph && s'.lock == s.lock
  {
    assert OnPath(s.graph, path, k);
    assert Last(path[..k]) == path[k - 1];
    s' := Take(s, w, Walk(path[k].c));
    assert path[..k] + [path[k]] == path[..k + 1];
    assert pending + multiset{} == pending;
  }

  /** A writer can walk along every path. */
  lemma {:induction false} WalkAlone(s: Map, w: nat, m: Ptr, path: seq<Cell>, k: nat, pending: multiset<nat>) returns (run: seq<Map>)
    requires IsPath(s.graph, path) && 0 < k <= |path| && Stands(s, w, m, path[..k], Looking, pending)
    ensures WritesAlone(run, w) && run[0] == s
    ensures var last := run[|run| - 1]; Stands(last, w, m, path, Looking, pending) && last.graph == s.graph && last.lock == s.lock
    decreases |path| - k
  {
    if k == |path| {
      assert path[..k] == path;
      run := [s];
    } else {
      var s1 := WalkOn(s, w, m, path, k, pending);
      var rest := WalkAlone(s1, w, m, path, k + 1, pending);
      run := [s] + rest;
    }
  }

  /** Taking the lock and walking to the end of a path. */
  lemma ComesTo(s: Map, w: nat, path: seq<Cell>) returns (run: seq<Map>)
    requires w < |s.workers| == |s.graph.holds| && s.workers[w].pc.Out? && s.lock.Open? && IsPath(s.graph, path)
    ensures WritesAlone(run, w) && run[0] == s
    ensures var last := run[|run| - 1];
      Stands(last, w, s.workers[w].pc.m, path, Looking, s.workers[w].pending) && last.graph == s.graph
  {
    assert OnPath(s.graph, path, 0);
    assert path[..1] == [ROOT];
    var s1 := Take(s, w, Enter);
    var rest := WalkAlone(s1, w, s.workers[w].pc.m, path, 1, s.workers[w].pending);
    run := [s] + rest;
  }

  /** Nothing that anybody can come to has changed. */
  ghost predicate Alike(g: State, g': State) {
    SameCells(g, g') && forall i | 0 <= i < |g.objs| && Live(g, i) :: Live(g', i)
  }

  lemma AlikeTransitively(a: State, b: State, c: State)
    requires Alike(a, b) && Alike(b, c)
    ensures Alike(a, c)
  {
  }

  lemma SameThenChange(g: State, g1: State, g2: State, at: Cell, p: Ptr)
    requires Alike(g, g1) && OnlyChanges(g1, g2, at, p) && InGraph(g, at)
    ensures OnlyChanges(g, g2, at, p)
  {
  }

  /** The writer is about to replace or erase `node`, behind which `next` comes. */
  ghost predicate IsAbout(s: Map, w: nat, m: Ptr, path: seq<Cell>, node: nat, next: Ptr, acquired: bool, linked: bool,
                          pending: multiset<nat>) {
    Stands(s, w, m, path, Replacing(node, next, acquired, linked), pending) && path != []
  }

  /** What a pointer leads to is there. */
  predicate NodeCellIs(g: State, m: Ptr) { m.At? ==> IsCell(g, m.n, 0) && !Live(g, m.n) }

  lemma AcquiresNext(s: Map, w: nat, m: Ptr, path: seq<Cell>, node: nat, next: Ptr, pending: multiset<nat>) returns (run: seq<Map>)
    requires IsAbout(s, w, m, path, node, next, false, false, pending) && PtrOk(s.graph, next) && NodeCellIs(s.graph, m)
    ensures WritesAlone(run, w) && run[0] == s
    ensures var last := run[|run| - 1];
      Alike(s.graph, last.graph) && NodeCellIs(last.graph, m) && IsAbout(last, w, m, path, node, next, next.At?, false, pending)
  {
    run := [s];
    if next.At? {
      var s1 := Take(s, w, AcquireNext);
      assert pending + multiset{} == pending;
      run := [s, s1];
    }
  }

  lemma LinksNext(s: Map, w: nat, m: Ptr, path: seq<Cell>, node: nat, next: Ptr, pending: multiset<nat>) returns (run: seq<Map>)
    requires IsAbout(s, w, m, path, node, next, next.At?, false, pending) && NodeCellIs(s.graph, m)
    ensures WritesAlone(run, w) && run[0] == s
    ensures var last := run[|run| - 1]; Alike(s.graph, last.graph) && IsAbout(last, w, m, path, node, next, next.At?, m.At?, pending)
  {
    run := [s];
    if m.At? {
      var s1 := Take(s, w, LinkNext);
      assert pending + multiset{} == pending;
      run := [s, s1];
    }
  }

  /** A path leads to a node. */
  ghost predicate LeadsToNode(g: State, path: seq<Cell>) {
    IsPath(g, path) && |path| >= 2 && Leads(g, Last(path)) && IsCell(g, Content(g, Last(path)).n, 0)
  }

  /** From the end of a path, a writer finds the node that it leads to and prepares the store. */
  lemma FindsAndPrepares(s: Map, w: nat, m: Ptr, path: seq<Cell>, pending: multiset<nat>) returns (run: seq<Map>)
    requires Stands(s, w, m, path, Looking, pending) && LeadsToNode(s.graph, path)
    requires PtrOk(s.graph, s.graph.objs[Content(s.graph, Last(path)).n].cells[0]) && NodeCellIs(s.graph, m)
    ensures WritesAlone(run, w) && run[0] == s
    ensures var last, n := run[|run| - 1], Content(s.graph, Last(path)).n;
      && Alike(s.graph, last.graph)
      && IsAbout(last, w, m, path, n, s.graph.objs[n].cells[0], s.graph.objs[n].cells[0].At?, m.At?, pending)
  {
    var n := Content(s.graph, Last(path)).n;
    var next := s.graph.objs[n].cells[0];
    var s1 := Take(s, w, Find);
    assert pending + multiset{} == pending;
    var more := AcquiresNext(s1, w, m, path, n, next, pending);
    run := [s] + more;
    var s2 := run[|run| - 1];
    var rest := LinksNext(s2, w, m, path, n, next, pending);
    GoOn(run, rest, w);
    AlikeTransitively(s.graph, s2.graph, rest[|rest| - 1].graph);
    run := run + rest[1..];
  }

  /** A writer that is outside, with the new node `m` or none. */
  ghost predicate IsOutside(s: Map, w: nat, m: Ptr, pending: multiset<nat>) {
    w < |s.workers| == |s.graph.holds| && s.workers[w] == Worker(Out(m), pending)
  }

  /** Taking the lock, walking along the path and preparing to replace or erase the node that it leads to. */
  lemma ComesToNode(s: Map, w: nat, m: Ptr, path: seq<Cell>, pending: multiset<nat>) returns (run: seq<Map>)
    requires IsOutside(s, w, m, pending) && s.lock.Open? && LeadsToNode(s.graph, path)
    requires PtrOk(s.graph, s.graph.objs[Content(s.graph, Last(path)).n].cells[0]) && NodeCellIs(s.graph, m)
    ensures WritesAlone(run, w) && run[0] == s
    ensures var last, n := run[|run| - 1], Content(s.graph, Last(path)).n;
      && Alike(s.graph, last.graph)
      && IsAbout(last, w, m, path, n, s.graph.objs[n].cells[0], s.graph.objs[n].cells[0].At?, m.At?, pending)
  {
    run := ComesTo(s, w, path);
    var s1 := run[|run| - 1];
    var more := FindsAndPrepares(s1, w, m, path, pending);
    GoOn(run, more, w);
    run := run + more[1..];
  }

  /** The store is made and the lock released. */
  lemma StoresAndLeaves(s: Map, w: nat, a: Action) returns (run: seq<Map>)
    requires Enabled(s, w, a) && (a.StoreNext? || a.StoreHead?)
    ensures WritesAlone(run, w) && run[0] == s && HasLock(s.graph, s.workers[w].pc, a)
    ensures var last := run[|run| - 1];
      && last.lock.Open? && IsOutside(last, w, Null, WorkerAfter(s.graph, s.workers[w], a).pending)
      && last.graph == Graph(s.graph, w, s.workers[w], a)
  {
    var s1 := Changes(s, w, a);
    var s2 := Leaves(s1, w, Null, [ROOT], WorkerAfter(s.graph, s.workers[w], a).pending);
    run := TwoSteps(s, s1, s2, w);
  }

  lemma Changes(s: Map, w: nat, a: Action) returns (s': Map)
    requires Enabled(s, w, a) && (a.StoreNext? || a.StoreHead?)
    ensures ActsAlone(s, s', w) && HasLock(s.graph, s.workers[w].pc, a) && s'.graph == Graph(s.graph, w, s.workers[w], a)
    ensures Stands(s', w, Null, [ROOT], Leaving, WorkerAfter(s.graph, s.workers[w], a).pending)
  {
    s' := Take(s, w, a);
  }

  lemma ReadyToStore(s: Map, w: nat, m: Ptr, path: seq<Cell>, node: nat, next: Ptr, pending: multiset<nat>)
    requires MapInv(s) && IsAbout(s, w, m, path, node, next, next.At?, m.At?, pending)
    ensures Enabled(s, w, StoreNext) && Ready(s.graph, w, s.workers[w], StoreNext)
    ensures Leads(s.graph, Last(path)) && Content(s.graph, Last(path)) == At(node)
    ensures IsCell(s.graph, node, 0) && s.graph.objs[node].cells[0] == next
  {
    assert WriterInv(s.graph, w, s.workers[w]);
    EndOfPath(s.graph, path);
  }

  /** Replacing or erasing the node that a path leads to, with the new node `m` or none. */
  lemma ChangesAlone(s: Map, w: nat, m: Ptr, path: seq<Cell>, pending: multiset<nat>) returns (run: seq<Map>)
    requires MapInv(s) && IsOutside(s, w, m, pending) && s.lock.Open? && LeadsToNode(s.graph, path)
    ensures WritesAlone(run, w) && run[0] == s
    ensures var last, n := run[|run| - 1], Content(s.graph, Last(path)).n;
      && last.lock.Open? && IsOutside(last, w, Null, pending + multiset{n})
      && OnlyChanges(s.graph, last.graph, Last(path), if m.At? then m else s.graph.objs[n].cells[0])
      && (m.At? ==> Live(last.graph, m.n) && last.graph.objs[m.n].cells == [s.graph.objs[n].cells[0]])
  {
    var n := Content(s.graph, Last(path)).n;
    var next := s.graph.objs[n].cells[0];
    assert WriterInv(s.graph, w, s.workers[w]) && CellInv(s.graph, n);
    run := ComesToNode(s, w, m, path, pending);
    AloneKeepsInv(run, w);
    var s1 := run[|run| - 1];
    ReadyToStore(s1, w, m, path, n, next, pending);
    StoreNextChanges(s1.graph, w, s1.workers[w]);
    var more := StoresAndLeaves(s1, w, StoreNext);
    GoOn(run, more, w);
    SameThenChange(s.graph, s1.graph, more[|more| - 1].graph, Last(path), if m.At? then m else next);
    run := run + more[1..];
  }

  /** From any state in which the lock is free: an erasure that nobody interferes with, of the node that a path leads to, makes the cell at
      the end of the path lead to the node after it, changes nothing else, and has the node to release. */
  lemma EraseAlone(s: Map, w: nat, path: seq<Cell>, pending: multiset<nat>) returns (run: seq<Map>)
    requires MapInv(s) && IsOutside(s, w, Null, pending) && s.lock.Open? && LeadsToNode(s.graph, path)
    ensures WritesAlone(run, w) && run[0] == s
    ensures var last, n := run[|run| - 1], Content(s.graph, Last(path)).n;
      && last.lock.Open? && IsOutside(last, w, Null, pending + multiset{n})
      && OnlyChanges(s.graph, last.graph, Last(path), s.graph.objs[n].cells[0])
  {
    run := ChangesAlone(s, w, Null, path, pending);
  }

  /** The new node is allocated, which changes nothing that anybody can come to. */
  lemma Allocates(s: Map, w: nat, pending: multiset<nat>) returns (s': Map)
    requires IsOutside(s, w, Null, pending)
    ensures ActsAlone(s, s', w) && s'.lock == s.lock && IsOutside(s', w, At(|s.graph.objs|), pending)
    ensures |s'.graph.objs| == |s.graph.objs| + 1 && forall i | 0 <= i < |s.graph.objs| :: s'.graph.objs[i] == s.graph.objs[i]
  {
    s' := Take(s, w, New);
  }

  lemma PathInMore(g: State, g': State, path: seq<Cell>)
    requires IsPath(g, path) && |g'.objs| >= |g.objs| && forall i | 0 <= i < |g.objs| :: g'.objs[i] == g.objs[i]
    ensures IsPath(g', path) && Alike(g, g')
  {
    forall i | 0 <= i < |path| ensures OnPath(g', path, i) { assert OnPath(g, path, i); }
  }

  /** In the same way, a replacement puts a new node in the place of the one that the path leads to. */
  lemma ReplaceAlone(s: Map, w: nat, path: seq<Cell>, pending: multiset<nat>) returns (run: seq<Map>)
    requires MapInv(s) && IsOutside(s, w, Null, pending) && s.lock.Open? && LeadsToNode(s.graph, path)
    ensures WritesAlone(run, w) && run[0] == s
    ensures var last, n, m := run[|run| - 1], Content(s.graph, Last(path)).n, |s.graph.objs|;
      && last.lock.Open? && IsOutside(last, w, Null, pending + multiset{n})
      && OnlyChanges(s.graph, last.graph, Last(path), At(m))
      && Live(last.graph, m) && last.graph.objs[m].cells == [s.graph.objs[n].cells[0]]
  {
    assert OnPath(s.graph, path, |path| - 1);
    var s0 := Allocates(s, w, pending);
    AloneKeepsInv([s, s0], w);
    PathInMore(s.graph, s0.graph, path);
    var more := ChangesAlone(s0, w, At(|s.graph.objs|), path, pending);
    SameThenChange(s.graph, s0.graph, more[|more| - 1].graph, Last(path), At(|s.graph.objs|));
    run := [s] + more;
  }

  lemma PutsAndLinks(s: Map, w: nat, m: Ptr, path: seq<Cell>, pending: multiset<nat>) returns (run: seq<Map>)
    requires Stands(s, w, m, path, Looking, pending) && |path| == 2 && m.At? && NodeCellIs(s.graph, m) && InGraph(s.graph, Last(path))
    ensures WritesAlone(run, w) && run[0] == s
    ensures var last := run[|run| - 1];
      Alike(s.graph, last.graph) && Stands(last, w, m, path, Inserting(Content(s.graph, Last(path)), true), pending)
  {
    var s1 := DecidesToPut(s, w, m, path, pending);
    var s2 := LinksHead(s1, w, m, path, Content(s.graph, Last(path)), pending);
    run := [s, s1, s2];
  }

  lemma DecidesToPut(s: Map, w: nat, m: Ptr, path: seq<Cell>, pending: multiset<nat>) returns (s': Map)
    requires Stands(s, w, m, path, Looking, pending) && |path| == 2 && m.At? && InGraph(s.graph, Last(path))
    ensures ActsAlone(s, s', w) && s'.graph == s.graph
    ensures Stands(s', w, m, path, Inserting(Content(s.graph, Last(path)), false), pending)
  {
    assert pending + multiset{} == pending;
    s' := Take(s, w, Put);
  }

  lemma LinksHead(s: Map, w: nat, m: Ptr, path: seq<Cell>, head: Ptr, pending: multiset<nat>) returns (s': Map)
    requires Stands(s, w, m, path, Inserting(head, false), pending) && path != [] && m.At? && NodeCellIs(s.graph, m)
    ensures ActsAlone(s, s', w) && Alike(s.graph, s'.graph) && Stands(s', w, m, path, Inserting(head, true), pending)
  {
    assert pending + multiset{} == pending;
    s' := Take(s, w, LinkHead);
  }

  lemma ReadyToInsert(s: Map, w: nat, m: Ptr, path: seq<Cell>, head: Ptr, pending: multiset<nat>)
    requires MapInv(s) && Stands(s, w, m, path, Inserting(head, true), pending) && path != []
    ensures Enabled(s, w, StoreHead) && Ready(s.graph, w, s.workers[w], StoreHead)
    ensures InGraph(s.graph, Last(path)) && Content(s.graph, Last(path)) == head
  {
    assert WriterInv(s.graph, w, s.workers[w]);
    EndOfPath(s.graph, path);
  }

  lemma PutsAlone(s: Map, w: nat, m: Ptr, path: seq<Cell>, pending: multiset<nat>) returns (run: seq<Map>)
    requires MapInv(s) && IsOutside(s, w, m, pending) && s.lock.Open? && IsPath(s.graph, path) && |path| == 2 && m.At?
    ensures WritesAlone(run, w) && run[0] == s && InGraph(s.graph, Last(path))
    ensures var last := run[|run| - 1];
      && last.lock.Open? && IsOutside(last, w, Null, pending)
      && OnlyChanges(s.graph, last.graph, Last(path), m)
      && Live(last.graph, m.n) && last.graph.objs[m.n].cells == [Content(s.graph, Last(path))]
  {
    assert WriterInv(s.graph, w, s.workers[w]) && OnPath(s.graph, path, 1);
    run := ComesTo(s, w, path);
    var s1 := run[|run| - 1];
    var more := PutsAndLinks(s1, w, m, path, pending);
    GoOn(run, more, w);
    run := run + more[1..];
    AloneKeepsInv(run, w);
    var s2 := run[|run| - 1];
    ReadyToInsert(s2, w, m, path, Content(s.graph, Last(path)), pending);
    StoreHeadChanges(s2.graph, w, s2.workers[w]);
    more := StoresAndLeaves(s2, w, StoreHead);
    GoOn(run, more, w);
    SameThenChange(s.graph, s2.graph, more[|more| - 1].graph, Last(path), m);
    run := run + more[1..];
  }

  /** And an insertion puts a new node in front of what a bucket led to. */
  lemma InsertAlone(s: Map, w: nat, path: seq<Cell>, pending: multiset<nat>) returns (run: seq<Map>)
    requires MapInv(s) && IsOutside(s, w, Null, pending) && s.lock.Open? && IsPath(s.graph, path) && |path| == 2
    ensures WritesAlone(run, w) && run[0] == s && InGraph(s.graph, Last(path))
    ensures var last, m := run[|run| - 1], |s.graph.objs|;
      && last.lock.Open? && IsOutside(last, w, Null, pending)
      && OnlyChanges(s.graph, last.graph, Last(path), At(m))
      && Live(last.graph, m) && last.graph.objs[m].cells == [Content(s.graph, Last(path))]
  {
    var m := At(|s.graph.objs|);
    assert OnPath(s.graph, path, 1);
    var s0 := Allocates(s, w, pending);
    AloneKeepsInv([s, s0], w);
    PathInMore(s.graph, s0.graph, path);
    var more := PutsAlone(s0, w, m, path, pending);
    SameThenChange(s.graph, s0.graph, more[|more| - 1].graph, Last(path), m);
    run := [s] + more;
  }

  // ---------- A rehash that nobody interferes with ----------

  /** The new array has `buckets` cells that lead nowhere, and nothing that anybody can come to has changed. */
  lemma GrowAlone(s: Map, w: nat, m: Ptr, path: seq<Cell>, pending: multiset<nat>, buckets: nat) returns (s': Map)
    requires Stands(s, w, m, path, Looking, pending) && path != []
    ensures ActsAlone(s, s', w) && Stands(s', w, m, path, Growing(|s.graph.objs|), pending)
    ensures |s'.graph.objs| == |s.graph.objs| + 1 && forall i | 0 <= i < |s.graph.objs| :: s'.graph.objs[i] == s.graph.objs[i]
    ensures s'.graph.objs[|s.graph.objs|].cells == seq(buckets, i => Null)
  {
    assert pending + multiset{} == pending;
    s' := Take(s, w, Grow(buckets));
  }

  /** Of the objects that are there, only the new array changes, and there only the cell of one bucket. */
  ghost predicate OnlyBucketChanges(g: State, g': State, table: nat, c: nat, p: Ptr) {
    && IsCell(g, table, c) && |g'.objs| >= |g.objs|
    && g'.objs[table].cells == g.objs[table].cells[c := p]
    && forall i | 0 <= i < |g.objs| && i != table :: g'.objs[i].cells == g.objs[i].cells
  }

  lemma CloneToAlone(s: Map, w: nat, m: Ptr, path: seq<Cell>, table: nat, c: nat, pending: multiset<nat>) returns (s': Map)
    requires Stands(s, w, m, path, Growing(table), pending) && path != [] && IsCell(s.graph, table, c)
    ensures ActsAlone(s, s', w) && Stands(s', w, m, path, Cloning(table, c, |s.graph.objs|, false), pending)
    ensures |s'.graph.objs| == |s.graph.objs| + 1 && forall i | 0 <= i < |s.graph.objs| :: s'.graph.objs[i] == s.graph.objs[i]
    ensures s'.graph.objs[|s.graph.objs|].cells == [Null]
  {
    assert pending + multiset{} == pending;
    s' := Take(s, w, CloneTo(c));
  }

  lemma LinksClone(s: Map, w: nat, m: Ptr, path: seq<Cell>, table: nat, c: nat, node: nat, pending: multiset<nat>) returns (s': Map)
    requires Stands(s, w, m, path, Cloning(table, c, node, false), pending) && path != [] && IsCell(s.graph, table, c)
    requires node < |s.graph.objs| && s.graph.objs[node].cells == [Null] && node != table
    ensures ActsAlone(s, s', w) && Stands(s', w, m, path, Cloning(table, c, node, true), pending)
    ensures |s'.graph.objs| == |s.graph.objs| && s'.graph.objs[node].cells == [s.graph.objs[table].cells[c]]
    ensures forall i | 0 <= i < |s.graph.objs| && i != node :: s'.graph.objs[i] == s.graph.objs[i]
  {
    assert pending + multiset{} == pending;
    s' := Take(s, w, LinkClone);
  }

  lemma PutsClone(s: Map, w: nat, m: Ptr, path: seq<Cell>, table: nat, c: nat, node: nat, pending: multiset<nat>) returns (s': Map)
    requires Stands(s, w, m, path, Cloning(table, c, node, true), pending) && path != [] && IsCell(s.graph, table, c)
    ensures ActsAlone(s, s', w) && Stands(s', w, m, path, Growing(table), pending)
    ensures |s'.graph.objs| == |s.graph.objs| && OnlyBucketChanges(s.graph, s'.graph, table, c, At(node))
  {
    assert pending + multiset{} == pending;
    s' := Take(s, w, PutClone);
  }

  /** A clone can be put in front of any bucket of the new array, ... */
  lemma CloneAlone(s: Map, w: nat, m: Ptr, path: seq<Cell>, table: nat, c: nat, pending: multiset<nat>) returns (run: seq<Map>)
    requires Stands(s, w, m, path, Growing(table), pending) && path != [] && IsCell(s.graph, table, c)
    ensures WritesAlone(run, w) && run[0] == s
    ensures var last, node := run[|run| - 1], |s.graph.objs|;
      && Stands(last, w, m, path, Growing(table), pending) && OnlyBucketChanges(s.graph, last.graph, table, c, At(node))
      && |last.graph.objs| == node + 1 && last.graph.objs[node].cells == [s.graph.objs[table].cells[c]]
  {
    var s1 := CloneToAlone(s, w, m, path, table, c, pending);
    var s2 := LinksClone(s1, w, m, path, table, c, |s.graph.objs|, pending);
    var s3 := PutsClone(s2, w, m, path, table, c, |s.graph.objs|, pending);
    run := ThreeSteps(s, s1, s2, s3, w);
  }

  lemma ThreeSteps(s: Map, s1: Map, s2: Map, s3: Map, w: nat) returns (run: seq<Map>)
    requires ActsAlone(s, s1, w) && ActsAlone(s1, s2, w) && ActsAlone(s2, s3, w)
    ensures run == [s, s1, s2, s3] && WritesAlone(run, w)
  {
    run := [s, s1, s2, s3];
  }

  lemma TwoSteps(s: Map, s1: Map, s2: Map, w: nat) returns (run: seq<Map>)
    requires ActsAlone(s, s1, w) && ActsAlone(s1, s2, w)
    ensures run == [s, s1, s2] && WritesAlone(run, w)
  {
    run := [s, s1, s2];
  }

  lemma SharesRun(s: Map, w: nat, m: Ptr, path: seq<Cell>, table: nat, c: nat, pending: multiset<nat>) returns (s': Map)
    requires Stands(s, w, m, path, Growing(table), pending) && path != [] && Leads(s.graph, Last(path))
    requires IsCell(s.graph, table, c) && s.graph.objs[table].cells[c] == Null
    ensures ActsAlone(s, s', w) && Stands(s', w, m, path, Sharing(table, c, Content(s.graph, Last(path)).n), pending)
    ensures |s'.graph.objs| == |s.graph.objs| && forall i | 0 <= i < |s.graph.objs| :: s'.graph.objs[i].cells == s.graph.objs[i].cells
  {
    assert pending + multiset{} == pending;
    s' := Take(s, w, ShareTo(c));
  }

  lemma PutsRun(s: Map, w: nat, m: Ptr, path: seq<Cell>, table: nat, c: nat, run: nat, pending: multiset<nat>) returns (s': Map)
    requires Stands(s, w, m, path, Sharing(table, c, run), pending) && path != [] && IsCell(s.graph, table, c)
    ensures ActsAlone(s, s', w) && Stands(s', w, m, path, Growing(table), pending)
    ensures OnlyBucketChanges(s.graph, s'.graph, table, c, At(run))
  {
    assert pending + multiset{} == pending;
    s' := Take(s, w, PutRun);
  }

  /** ... any run that a cell which the writer can come to leads to can be shared by an empty bucket, ... */
  lemma ShareAlone(s: Map, w: nat, m: Ptr, path: seq<Cell>, table: nat, c: nat, pending: multiset<nat>) returns (run: seq<Map>)
    requires Stands(s, w, m, path, Growing(table), pending) && path != [] && Leads(s.graph, Last(path))
    requires IsCell(s.graph, table, c) && s.graph.objs[table].cells[c] == Null
    ensures WritesAlone(run, w) && run[0] == s
    ensures var last := run[|run| - 1];
      Stands(last, w, m, path, Growing(table), pending) && OnlyBucketChanges(s.graph, last.graph, table, c, Content(s.graph, Last(path)))
  {
    var s1 := SharesRun(s, w, m, path, table, c, pending);
    var s2 := PutsRun(s1, w, m, path, table, c, Content(s.graph, Last(path)).n, pending);
    run := TwoSteps(s, s1, s2, w);
  }

  /** ... and at any time the array can be published: the segment leads to it then, as it is, and the old array is left to release. */
  lemma PublishAlone(s: Map, w: nat, m: Ptr, path: seq<Cell>, table: nat, pending: multiset<nat>) returns (s': Map)
    requires MapInv(s) && Stands(s, w, m, path, Growing(table), pending) && path != []
    ensures ActsAlone(s, s', w) && OnlyChanges(s.graph, s'.graph, ROOT, At(table))
    ensures Live(s'.graph, table) && table < |s.graph.objs| && s'.graph.objs[table].cells == s.graph.objs[table].cells
    ensures Leads(s.graph, ROOT) && Stands(s', w, m, [ROOT], Looking, pending + multiset{Content(s.graph, ROOT).n})
  {
    ReadyToPublish(s, w, m, path, table, pending);
    PublishChanges(s.graph, w, s.workers[w], PublishTable);
    s' := Take(s, w, PublishTable);
  }

  lemma ReadyToPublish(s: Map, w: nat, m: Ptr, path: seq<Cell>, table: nat, pending: multiset<nat>)
    requires MapInv(s) && Stands(s, w, m, path, Growing(table), pending) && path != []
    ensures Enabled(s, w, PublishTable) && Ready(s.graph, w, s.workers[w], PublishTable) && Leads(s.graph, ROOT)
  {
    assert WriterInv(s.graph, w, s.workers[w]) && CellInv(s.graph, 0);
  }

  /** What a writer still has to release it can release at any time, and the last reference retires the object. */
  lemma FinishAlone(s: Map, w: nat, n: nat) returns (s': Map)
    requires MapInv(s) && w < |s.workers| && n in s.workers[w].pending
    ensures ActsAlone(s, s', w) && MapInv(s') && n < |s.graph.objs| == |s'.graph.objs| && s.graph.objs[n].refcount > 0
    ensures s'.workers == s.workers[w := Worker(s.workers[w].pc, s.workers[w].pending - multiset{n})]
    ensures s'.graph.objs[n].refcount == s.graph.objs[n].refcount - 1
    ensures s'.graph.objs[n].place == if s.graph.objs[n].refcount == 1 then Retired(w) else s.graph.objs[n].place
  {
    assert WriterInv(s.graph, w, s.workers[w]);
    PendingIsHeld(s.graph, w, s.workers[w], n);
    s' := Take(s, w, Finish(n));
    ActKeepsInv(s, s', w);
  }

  /** A new node that was not needed is deleted; nobody has seen it. */
  lemma DropAlone(s: Map, w: nat, m: nat, pending: multiset<nat>) returns (s': Map)
    requires MapInv(s) && IsOutside(s, w, At(m), pending)
    ensures ActsAlone(s, s', w) && IsOutside(s', w, Null, pending)
    ensures m < |s.graph.objs| && s'.graph.objs == s.graph.objs[m := s.graph.objs[m].(refcount := 0, place := Deleted)]
  {
    assert WriterInv(s.graph, w, s.workers[w]);
    s' := Take(s, w, Drop);
  }

  // ---------- A clear that nobody interferes with ----------

  lemma EntersClear(s: Map, w: nat, was: nat, buckets: nat, pending: multiset<nat>) returns (s1: Map, s2: Map)
    requires IsOutside(s, w, Null, pending) && s.lock.Open? && Leads(s.graph, ROOT) && Content(s.graph, ROOT) == At(was)
    ensures ActsAlone(s, s1, w) && ActsAlone(s1, s2, w) && Stands(s2, w, Null, [ROOT], Emptying(|s.graph.objs|, was), pending)
    ensures |s2.graph.objs| == |s.graph.objs| + 1 && forall i | 0 <= i < |s.graph.objs| :: s2.graph.objs[i] == s.graph.objs[i]
    ensures s2.graph.objs[|s.graph.objs|].cells == seq(buckets, i => Null)
  {
    s1 := Take(s, w, ReadOld);
    s2 := Take(s1, w, EnterClear(buckets));
  }

  lemma BeginsClear(s: Map, w: nat, was: nat, buckets: nat, pending: multiset<nat>) returns (run: seq<Map>)
    requires MapInv(s) && IsOutside(s, w, Null, pending) && s.lock.Open? && Leads(s.graph, ROOT) && Content(s.graph, ROOT) == At(was)
    ensures WritesAlone(run, w) && run[0] == s && MapInv(run[|run| - 1])
    ensures var last, table := run[|run| - 1], |s.graph.objs|;
      && Stands(last, w, Null, [ROOT], Emptying(table, was), pending) && Alike(s.graph, last.graph)
      && table < |last.graph.objs| && last.graph.objs[table].cells == seq(buckets, i => Null)
      && InGraph(last.graph, ROOT) && Content(last.graph, ROOT) == At(was)
  {
    var s1, s2 := EntersClear(s, w, was, buckets, pending);
    run := TwoSteps(s, s1, s2, w);
    AloneKeepsInv(run, w);
  }

  lemma Empties(s: Map, w: nat, table: nat, was: nat, pending: multiset<nat>) returns (s': Map)
    requires MapInv(s) && Stands(s, w, Null, [ROOT], Emptying(table, was), pending)
    requires InGraph(s.graph, ROOT) && Content(s.graph, ROOT) == At(was)
    ensures ActsAlone(s, s', w) && Stands(s', w, Null, [ROOT], Leaving, pending + multiset{was})
    ensures OnlyChanges(s.graph, s'.graph, ROOT, At(table))
    ensures Live(s'.graph, table) && table < |s.graph.objs| && s'.graph.objs[table].cells == s.graph.objs[table].cells
  {
    PublishChanges(s.graph, w, s.workers[w], StoreEmpty);
    s' := Apply(s, w, StoreEmpty);
  }

  lemma Leaves(s: Map, w: nat, m: Ptr, path: seq<Cell>, pending: multiset<nat>) returns (s': Map)
    requires Stands(s, w, m, path, Leaving, pending) && path != []
    ensures ActsAlone(s, s', w) && s'.graph == s.graph && s'.lock.Open? && IsOutside(s', w, m, pending)
  {
    assert pending + multiset{} == pending;
    s' := Take(s, w, Leave);
  }

  /** From every state in which the lock is free, a clear that nobody interferes with makes the segment lead to an array whose buckets lead
      nowhere, changes nothing else, and has the old array to release. */
  lemma ClearAlone(s: Map, w: nat, buckets: nat, pending: multiset<nat>) returns (run: seq<Map>)
    requires MapInv(s) && IsOutside(s, w, Null, pending) && s.lock.Open?
    ensures WritesAlone(run, w) && run[0] == s && Leads(s.graph, ROOT)
    ensures var last, table := run[|run| - 1], |s.graph.objs|;
      && last.lock.Open? && IsOutside(last, w, Null, pending + multiset{Content(s.graph, ROOT).n})
      && OnlyChanges(s.graph, last.graph, ROOT, At(table))
      && Live(last.graph, table) && last.graph.objs[table].cells == seq(buckets, i => Null)
  {
    SegmentLeads(s);
    var was := Content(s.graph, ROOT).n;
    run := BeginsClear(s, w, was, buckets, pending);
    var s1 := run[|run| - 1];
    var s2 := Empties(s1, w, |s.graph.objs|, was, pending);
    var s3 := Leaves(s2, w, Null, [ROOT], pending + multiset{was});
    SameThenChange(s.graph, s1.graph, s2.graph, ROOT, At(|s.graph.objs|));
    var rest := TwoSteps(s1, s2, s3, w);
    GoOn(run, rest, w);
    run := run + rest[1..];
  }

  lemma SegmentLeads(s: Map)
    requires MapInv(s)
    ensures Leads(s.graph, ROOT)
  {
    assert CellInv(s.graph, 0);
  }
}
