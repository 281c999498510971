/** The writers of the two hash maps as programs, beside each other and beside readers and reclaimers: insert, replace, erase,
    rehash and clear, one access to shared memory at a time. The machine of HazardGraph allows its writers any step for which
    the references balance; here the steps are what the code does, and that the references balance is proved.

    A writer takes the lock of its segment, walks along cells to the one it is going to change, changes it with one store and
    releases the lock; the references it still has to release it releases at any later time. When the map is to grow it
    builds a new bucket array out of clones, and in the one hash map also out of shared runs, in objects that nobody else can see;
    a single store then publishes all of it. Keys are not modelled here, so where a walk ends is arbitrary. */
module MapWriters {
  import opened HazardGraph
  import opened Links
  import opened Runs
  import opened Sums

  /** Cell `c` of object `o`. */
  datatype Cell = Cell(o: nat, c: nat)

  datatype Job =
    | Looking                                                         // nothing decided yet
    | Replacing(node: nat, next: Ptr, acquired: bool, linked: bool)   // found `node`, whose successor is `next`
    | Inserting(head: Ptr, linked: bool)                              // not found; `head` is the first node of the bucket
    | Growing(table: nat)                                             // filling a new bucket array
    | Cloning(table: nat, c: nat, node: nat, linked: bool)            // `node` is to become the head of bucket `c`
    | Sharing(table: nat, c: nat, run: nat)                           // the same for `run`, which has been acquired
    | Emptying(table: nat, was: nat)                                  // about to put the empty array in the place of `was`
    | Leaving                                                         // has changed the map

  /** `m` is the new node that an insertion brings along; there is none in an erasure. `path` leads from the segment to the cell
      that the walk has come to. */
  datatype Pc =
    | Out(m: Ptr)                              // without the lock
    | Clears(m: Ptr, seen: nat)                // the same, and has read that the array to be cleared is `seen`
    | In(m: Ptr, path: seq<Cell>, job: Job)    // with the lock

  /** `pending` are the references that the worker still has to release. */
  datatype Worker = Worker(pc: Pc, pending: multiset<nat>)

  datatype Lock = Open | HeldBy(w: nat)

  datatype Map = Map(graph: State, lock: Lock, workers: seq<Worker>)

  datatype Action =
    | New | Drop                 // the new node is allocated; it was not needed and is deleted
    | Enter | Leave              // the lock is taken; released
    | Walk(c: nat) | Restart     // on to cell `c` of the object that the cell leads to; again from the segment
    | Find | Put                 // decides to replace or erase what the cell leads to; to insert at the head of the bucket
    | AcquireNext | LinkNext     // acquires the successor; the new node is made to lead to it
    | StoreNext                  // the cell is made to lead to the new node, or past the erased one
    | LinkHead | StoreHead       // the new node is made to lead to the old head; the bucket is made to lead to the new node
    | Grow(buckets: nat)         // allocates the new array
    | CloneTo(c: nat)            // allocates a clone for bucket `c`
    | LinkClone | PutClone       // the clone is made to lead to the head of the bucket; the bucket to the clone
    | ShareTo(c: nat) | PutRun   // acquires the node that the cell leads to; empty bucket `c` is made to lead to it
    | PublishTable               // the segment is made to lead to the new array
    | ReadOld                    // clear: reads which array is to be replaced
    | EnterClear(buckets: nat)   // takes the lock, with an empty array that nobody has seen
    | StoreEmpty                 // the segment is made to lead to the empty array
    | Finish(n: nat)             // releases a reference it still has to release

  // ---------- Steps ----------

  const ROOT: Cell := Cell(0, 0)

  predicate InGraph(g: State, at: Cell) { IsCell(g, at.o, at.c) }

  function Content(g: State, at: Cell): Ptr
    requires InGraph(g, at)
  {
    g.objs[at.o].cells[at.c]
  }

  /** The cell leads to an object. */
  predicate Leads(g: State, at: Cell) { InGraph(g, at) && Content(g, at).At? && Content(g, at).n < |g.objs| }

  function Last(path: seq<Cell>): Cell
    requires path != []
  {
    path[|path| - 1]
  }

  predicate Searches(job: Job) { job.Looking? || job.Growing? }

  predicate Enabled(s: Map, w: nat, a: Action) {
    && w < |s.workers| == |s.graph.holds|
    && var pc := s.workers[w].pc;
       match a
       case New => pc == Out(Null)
       case Drop => pc.Out? && pc.m.At? && pc.m.n < |s.graph.objs|
       case Enter => pc.Out? && s.lock.Open?
       case ReadOld => pc == Out(Null) && Leads(s.graph, ROOT)
       case EnterClear(_) => pc.Clears? && s.lock.Open?
       case Finish(n) => n in s.workers[w].pending && n < |s.graph.objs| && s.graph.objs[n].refcount > 0
       case _ => HasLock(s.graph, pc, a)
  }

  predicate HasLock(g: State, pc: Pc, a: Action) { pc.In? && pc.path != [] && Locked(g, pc.m, pc.path, pc.job, a) }

  /** What a writer that has the lock can do next. */
  predicate Locked(g: State, m: Ptr, path: seq<Cell>, job: Job, a: Action)
    requires path != []
  {
    match a
    case Leave => job.Looking? || job.Leaving?
    case Walk(c) => Searches(job) && Leads(g, Last(path)) && IsCell(g, Content(g, Last(path)).n, c)
    case Restart => Searches(job)
    case Find => job.Looking? && |path| >= 2 && Leads(g, Last(path)) && IsCell(g, Content(g, Last(path)).n, 0)
    case Put => job.Looking? && |path| == 2 && m.At? && InGraph(g, Last(path))
    case AcquireNext => job.Replacing? && !job.acquired && job.next.At? && job.next.n < |g.objs|
    case LinkNext => job.Replacing? && !job.linked && m.At? && IsCell(g, m.n, 0)
    case StoreNext => job.Replacing? && (job.next.At? ==> job.acquired) && (m.At? ==> job.linked) && InGraph(g, Last(path))
    case LinkHead => job.Inserting? && !job.linked && m.At? && IsCell(g, m.n, 0)
    case StoreHead => job.Inserting? && job.linked && m.At? && InGraph(g, Last(path))
    case Grow(_) => job.Looking?
    case CloneTo(c) => job.Growing? && IsCell(g, job.table, c)
    case LinkClone => job.Cloning? && !job.linked && IsCell(g, job.node, 0) && IsCell(g, job.table, job.c)
    case PutClone => job.Cloning? && job.linked && IsCell(g, job.table, job.c)
    case ShareTo(c) => job.Growing? && Leads(g, Last(path)) && IsCell(g, job.table, c) && g.objs[job.table].cells[c] == Null
    case PutRun => job.Sharing? && IsCell(g, job.table, job.c)
    case PublishTable => job.Growing? && Leads(g, ROOT)
    case StoreEmpty => job.Emptying? && InGraph(g, ROOT)
    case _ => false
  }

  function Ref(p: Ptr): multiset<nat> { if p.At? then multiset{p.n} else multiset{} }

  function SetWorker(s: Map, w: nat, g: State, pc: Pc, pending: multiset<nat>): Map
    requires w < |s.workers|
  {
    s.(graph := g, workers := s.workers[w := Worker(pc, pending)])
  }

  /** The steps without the lock, and those that take and release it. */
  predicate Outside(a: Action) { a.New? || a.Drop? || a.Enter? || a.Leave? || a.ReadOld? || a.EnterClear? || a.Finish? }

  function ApplyOutside(s: Map, w: nat, a: Action): Map
    requires Enabled(s, w, a) && Outside(a)
  {
    var g, pc, pending := s.graph, s.workers[w].pc, s.workers[w].pending;
    match a
    case New => SetWorker(s, w, Allocated(g, w, |g.objs|, 1), Out(At(|g.objs|)), pending)
    case Drop => SetWorker(s, w, Dropped(g, w, pc.m.n), Out(Null), pending)
    case Enter => SetWorker(s, w, g, In(pc.m, [ROOT], Looking), pending).(lock := HeldBy(w))
    case Leave => SetWorker(s, w, g, Out(pc.m), pending).(lock := Open)
    case ReadOld => SetWorker(s, w, g, Clears(Null, Content(g, ROOT).n), pending)
    case EnterClear(buckets) =>
      var job := Emptying(|g.objs|, pc.seen);
      SetWorker(s, w, Allocated(g, w, |g.objs|, buckets), In(pc.m, [ROOT], job), pending).(lock := HeldBy(w))
    case Finish(n) => SetWorker(s, w, LetGo(g, w, n), pc, pending - multiset{n})
  }

  function Apply(s: Map, w: nat, a: Action): Map
    requires Enabled(s, w, a)
  {
    if Outside(a) then ApplyOutside(s, w, a) else ApplyInside(s, w, a)
  }

  function ApplyInside(s: Map, w: nat, a: Action): Map
    requires w < |s.workers| == |s.graph.holds| && HasLock(s.graph, s.workers[w].pc, a)
  {
    s.(graph := Graph(s.graph, w, s.workers[w], a), workers := s.workers[w := WorkerAfter(s.graph, s.workers[w], a)])
  }

  /** What an action under the lock does to shared memory. The last argument of a store is history: the references that the worker
      is left with. */
  function Graph(g: State, w: nat, worker: Worker, a: Action): State
    requires HasLock(g, worker.pc, a) && w < |g.holds|
  {
    var pending, m, at, job := worker.pending, worker.pc.m, Last(worker.pc.path), worker.pc.job;
    match a
    case AcquireNext => Acquired(g, w, job.next.n)
    case LinkNext => WithCell(g, m.n, 0, job.next)
    case StoreNext =>
      Stored(g, w, at.o, at.c, if m.At? then m else job.next, if m.At? then m.n else |g.objs|, pending + multiset{job.node})
    case LinkHead => WithCell(g, m.n, 0, job.head)
    case StoreHead => Stored(g, w, at.o, at.c, m, m.n, pending)
    case Grow(buckets) => Allocated(g, w, |g.objs|, buckets)
    case CloneTo(_) => Allocated(g, w, job.table, 1)
    case LinkClone => WithCell(g, job.node, 0, g.objs[job.table].cells[job.c])
    case PutClone => WithCell(g, job.table, job.c, At(job.node))
    case ShareTo(_) => Acquired(g, w, Content(g, at).n)
    case PutRun => WithCell(g, job.table, job.c, At(job.run))
    case PublishTable => Stored(g, w, 0, 0, At(job.table), job.table, pending + Ref(m) + multiset{Content(g, ROOT).n})
    case StoreEmpty => Stored(g, w, 0, 0, At(job.table), job.table, pending + Ref(m) + multiset{job.was})
    case _ => g
  }

  function WorkerAfter(g: State, worker: Worker, a: Action): Worker
    requires HasLock(g, worker.pc, a)
  {
    var pc := worker.pc;
    Worker(In(if a.StoreNext? || a.StoreHead? then Null else pc.m, NewPath(g, pc.path, a), NewJob(g, pc.m, pc.path, pc.job, a)),
           worker.pending + Left(g, pc.job, a))
  }

  function NewPath(g: State, path: seq<Cell>, a: Action): seq<Cell>
    requires path != [] && (a.Walk? ==> Leads(g, Last(path)))
  {
    if a.Walk? then path + [Cell(Content(g, Last(path)).n, a.c)]
    else if a.Restart? || a.StoreNext? || a.StoreHead? || a.PublishTable? || a.StoreEmpty? then [ROOT]
    else path
  }

  function NewJob(g: State, m: Ptr, path: seq<Cell>, job: Job, a: Action): Job
    requires path != [] && Locked(g, m, path, job, a)
  {
    match a
    case Find => Replacing(Content(g, Last(path)).n, g.objs[Content(g, Last(path)).n].cells[0], false, false)
    case Put => Inserting(Content(g, Last(path)), false)
    case AcquireNext => Replacing(job.node, job.next, true, job.linked)
    case LinkNext => Replacing(job.node, job.next, job.acquired, true)
    case LinkHead => Inserting(job.head, true)
    case StoreNext => Leaving
    case StoreHead => Leaving
    case Grow(_) => Growing(|g.objs|)
    case CloneTo(c) => Cloning(job.table, c, |g.objs|, false)
    case LinkClone => Cloning(job.table, job.c, job.node, true)
    case PutClone => Growing(job.table)
    case ShareTo(c) => Sharing(job.table, c, Content(g, Last(path)).n)
    case PutRun => Growing(job.table)
    case PublishTable => Looking
    case StoreEmpty => Leaving
    case _ => job
  }

  /** The references that are left to release: the node that was replaced or erased, and the old array, or what clear takes
      for it. */
  function Left(g: State, job: Job, a: Action): multiset<nat> {
    if a.StoreNext? && job.Replacing? then multiset{job.node}
    else if a.PublishTable? && Leads(g, ROOT) then multiset{Content(g, ROOT).n}
    else if a.StoreEmpty? && job.Emptying? then multiset{job.was}
    else multiset{}
  }

  // ---------- Runs ----------

  /** A clear is about to replace another array than the one it has read and will retire. */
  predicate IsStale(g: State, pc: Pc, a: Action) {
    a.StoreEmpty? && pc.In? && pc.job.Emptying? && InGraph(g, ROOT) && Content(g, ROOT) != At(pc.job.was)
  }

  /** A step of a writer; a clear between whose reading of the array and taking of the lock nobody replaces the array. */
  ghost predicate Writes(s: Map, s': Map) {
    exists w: nat, a :: Enabled(s, w, a) && !IsStale(s.graph, s.workers[w].pc, a) && s' == Apply(s, w, a)
  }

  /** A reclaimer deletes a node or an array; its destructor will release what the cells lead to. */
  ghost predicate Deletes(s: Map, s': Map, k: nat, n: nat) {
    && Sweep(s.graph, k, n, s'.graph) && At(n) !in s.graph.reclaims[k].seen
    && var w := s.graph.reclaims[k].worker;
       && w < |s.workers|
       && s' == SetWorker(s, w, s'.graph, s.workers[w].pc, s.workers[w].pending + Targets(s.graph.objs[n].cells))
  }

  /** Any other step of a reclaimer, and any step of a reader. */
  ghost predicate Looks(s: Map, s': Map) {
    && (ReclaimerMoves(s.graph, s'.graph) || ReaderMoves(s.graph, s'.graph))
    && s'.graph.holds == s.graph.holds && s' == s.(graph := s'.graph)
  }

  ghost predicate MapMoves(s: Map, s': Map) {
    Writes(s, s') || (exists k: nat, n: nat :: Deletes(s, s', k, n)) || Looks(s, s')
  }

  ghost predicate MapInit(s: Map) {
    && Init(s.graph) && s.lock == Open && |s.workers| == |s.graph.holds|
    && forall w | 0 <= w < |s.workers| :: s.workers[w] == Worker(Out(Null), multiset{})
  }

  ghost predicate IsWriterRun(run: seq<Map>) { IsRun(MapInit, MapMoves, run) }

  // ---------- The invariant ----------

  /** References to `n` from the cells of the objects that are being built. */
  ghost function Built(g: State, w: nat, tag: nat, n: nat): int { Sum(FreshCount(w, tag, n), g.objs) }

  function Same(k: nat, n: nat): nat { if k == n then 1 else 0 }

  /** The references to `n` that a writer has at this point of its program, besides the pending ones. */
  ghost function InHand(g: State, w: nat, pc: Pc, n: nat): int {
    One(pc.m, n) + if !pc.In? then 0 else
      match pc.job
      case Replacing(_, next, acquired, _) => if acquired then One(next, n) else 0
      case Growing(table) => Same(table, n) + Built(g, w, table, n)
      case Emptying(table, _) => Same(table, n) + Built(g, w, table, n)
      case Cloning(table, c, node, linked) =>
        Same(table, n) + Same(node, n) + Built(g, w, table, n)
          - (if linked && IsCell(g, table, c) then One(g.objs[table].cells[c], n) else 0)
      case Sharing(table, _, run) => Same(table, n) + Same(run, n) + Built(g, w, table, n)
      case _ => 0
  }

  ghost predicate Accounted(g: State, w: nat, worker: Worker, n: nat)
    requires w < |g.holds|
  {
    g.holds[w][n] == worker.pending[n] + InHand(g, w, worker.pc, n)
  }

  ghost predicate OnPath(g: State, path: seq<Cell>, i: nat)
    requires i < |path|
  {
    && InGraph(g, path[i]) && Live(g, path[i].o)
    && (i == 0 ==> path[0] == ROOT)
    && (i > 0 ==> InGraph(g, path[i - 1]) && Content(g, path[i - 1]) == At(path[i].o))
  }

  ghost predicate IsPath(g: State, path: seq<Cell>) {
    path != [] && forall i | 0 <= i < |path| :: OnPath(g, path, i)
  }

  /** What the cell of a new object leads to is new as well, or linked. */
  predicate WillBeLinked(g: State, w: nat, tag: nat, p: Ptr) {
    p.At? ==> p.n < |g.objs| && (g.objs[p.n].place == Fresh(w, tag) || g.objs[p.n].place.Linked?)
  }

  ghost predicate NewCells(g: State, w: nat, tag: nat, i: nat)
    requires i < |g.objs|
  {
    g.objs[i].place == Fresh(w, tag) ==> forall q | q in g.objs[i].cells :: WillBeLinked(g, w, tag, q)
  }

  ghost predicate Building(g: State, w: nat, table: nat) {
    && table < |g.objs| && g.objs[table].place == Fresh(w, table)
    && forall i | 0 <= i < |g.objs| :: NewCells(g, w, table, i)
  }

  /** The array that a job builds. */
  function Table(pc: Pc): Ptr {
    if pc.In? && (pc.job.Growing? || pc.job.Cloning? || pc.job.Sharing? || pc.job.Emptying?) then At(pc.job.table) else Null
  }

  /** What the new node leads to. */
  function NodeCell(pc: Pc): Ptr {
    if pc.In? && pc.job.Replacing? && pc.job.linked then pc.job.next
    else if pc.In? && pc.job.Inserting? && pc.job.linked then pc.job.head
    else Null
  }

  ghost predicate NodeInv(g: State, w: nat, pc: Pc) {
    pc.m.At? ==> pc.m.n < |g.objs| && g.objs[pc.m.n].place == Fresh(w, pc.m.n) && g.objs[pc.m.n].cells == [NodeCell(pc)]
  }

  /** A writer's objects that are not published are its new node, and those of the array that it builds. */
  ghost predicate OwnInv(g: State, w: nat, pc: Pc, i: nat)
    requires i < |g.objs|
  {
    var place := g.objs[i].place;
    place.Fresh? && place.w == w ==> At(place.tag) == Table(pc) || (At(place.tag) == pc.m && i == place.tag)
  }

  ghost predicate JobInv(g: State, w: nat, pc: Pc)
    requires pc.In? && IsPath(g, pc.path)
  {
    var at := Last(pc.path);
    match pc.job
    case Replacing(node, next, acquired, linked) =>
      && |pc.path| >= 2 && InGraph(g, at) && Content(g, at) == At(node) && IsCell(g, node, 0) && g.objs[node].cells[0] == next
      && (acquired ==> next.At?) && (linked ==> pc.m.At?)
    case Inserting(head, _) => |pc.path| >= 2 && InGraph(g, at) && Content(g, at) == head && pc.m.At?
    case Growing(table) => Building(g, w, table)
    case Emptying(table, _) => Building(g, w, table) && pc.m == Null
    case Cloning(table, c, node, linked) =>
      && Building(g, w, table) && IsCell(g, table, c) && node != table
      && node < |g.objs| && g.objs[node].place == Fresh(w, table)
      && g.objs[node].cells == [if linked then g.objs[table].cells[c] else Null]
    case Sharing(table, c, run) =>
      Building(g, w, table) && IsCell(g, table, c) && g.objs[table].cells[c] == Null && run < |g.objs| && g.objs[run].place.Linked?
    case _ => true
  }

  ghost predicate ProgramInv(g: State, w: nat, pc: Pc) {
    && NodeInv(g, w, pc)
    && (Table(pc) == pc.m ==> pc.m == Null)
    && (pc.Clears? ==> pc.m == Null)
    && (forall i | 0 <= i < |g.objs| :: OwnInv(g, w, pc, i))
    && (pc.In? ==> IsPath(g, pc.path) && JobInv(g, w, pc))
  }

  ghost predicate WriterInv(g: State, w: nat, worker: Worker)
    requires w < |g.holds|
  {
    && ProgramInv(g, w, worker.pc)
    && (forall n: nat :: Accounted(g, w, worker, n))
    && forall n | n in worker.pending :: n < |g.objs| && g.objs[n].place.Linked?
  }

  /** The segment leads to a bucket array. */
  ghost predicate RootInv(g: State) { |g.objs| > 0 && |g.objs[0].cells| == 1 && g.objs[0].cells[0].At? }

  ghost predicate MapInv(s: Map) {
    && Inv(s.graph) && RootInv(s.graph) && |s.workers| == |s.graph.holds|
    && (forall w | 0 <= w < |s.workers| :: WriterInv(s.graph, w, s.workers[w]))
    && (forall w | 0 <= w < |s.workers| :: s.workers[w].pc.In? <==> s.lock == HeldBy(w))
  }

  /** A writer that has the lock is about to take the step `a`. */
  ghost predicate Ready(g: State, w: nat, worker: Worker, a: Action) {
    Inv(g) && RootInv(g) && w < |g.holds| && WriterInv(g, w, worker) && HasLock(g, worker.pc, a)
  }

  // ---------- What the steps of others leave alone ----------

  predicate IsOwn(o: Obj, w: nat) { o.place.Fresh? && o.place.w == w }

  /** Nothing happens to the objects that `w` has not published, and nothing else becomes one of them. */
  ghost predicate Untouched(g: State, g': State, w: nat) {
    && |g'.objs| >= |g.objs|
    && (forall i | 0 <= i < |g.objs| && IsOwn(g.objs[i], w) :: g'.objs[i] == g.objs[i])
    && (forall i | 0 <= i < |g'.objs| && IsOwn(g'.objs[i], w) :: i < |g.objs| && IsOwn(g.objs[i], w))
    && (forall i | 0 <= i < |g.objs| && g.objs[i].place.Linked? :: !g'.objs[i].place.Fresh?)
  }

  /** No published cell changes. */
  ghost predicate SameCells(g: State, g': State) {
    |g'.objs| >= |g.objs| && forall i | 0 <= i < |g.objs| && Live(g, i) :: g'.objs[i].cells == g.objs[i].cells
  }

  lemma BuiltSame(g: State, g': State, w: nat, tag: nat, n: nat)
    requires Untouched(g, g', w)
    ensures Built(g', w, tag, n) == Built(g, w, tag, n)
  {
    forall i | 0 <= i < |g.objs| ensures FreshCount(w, tag, n)(g'.objs[i]) == FreshCount(w, tag, n)(g.objs[i]) {
      if IsOwn(g.objs[i], w) { assert g'.objs[i] == g.objs[i]; } else { assert !IsOwn(g'.objs[i], w); }
    }
    forall i | |g.objs| <= i < |g'.objs| ensures FreshCount(w, tag, n)(g'.objs[i]) == 0 { assert !IsOwn(g'.objs[i], w); }
    SumBeyond(FreshCount(w, tag, n), g.objs, g'.objs);
  }

  /** A path stays one as long as nobody changes published cells: what they lead to has a reference and cannot be retired. */
  lemma {:induction false} PathStays(g: State, g': State, path: seq<Cell>)
    requires IsPath(g, path) && GraphInv(g') && SameCells(g, g')
    ensures IsPath(g', path)
  {
    var last := |path| - 1;
    assert OnPath(g, path, last);
    if last > 0 {
      var init := path[..last];
      forall i | 0 <= i < last ensures OnPath(g, init, i) { assert OnPath(g, path, i); }
      PathStays(g, g', init);
      forall i | 0 <= i < last ensures OnPath(g', path, i) { assert OnPath(g', init, i); }
      assert OnPath(g, path, last - 1) && OnPath(g', path, last - 1) && CellInv(g', path[last - 1].o);
      assert Content(g', path[last - 1]) == At(path[last].o);
    } else {
      assert CountInv(g', 0);
    }
  }

  /** What a worker has a reference to stays linked. */
  lemma HeldStaysLinked(g: State, g': State, w: nat, n: nat)
    requires GraphInv(g) && GraphInv(g') && n < |g.objs| <= |g'.objs| && g.objs[n].place.Linked? && !g'.objs[n].place.Fresh?
    requires w < |g'.holds| && g'.holds[w][n] > 0
    ensures g'.objs[n].place.Linked?
  {
    assert CountInv(g, n) && CountInv(g', n);
    CountsAreNaturals(g', n);
    SumAtLeast(HoldCount(n), g'.holds, w);
  }

  /** The cells of new objects need references that the worker has. */
  lemma CellIsHeld(g: State, w: nat, pc: Pc, i: nat, q: Ptr)
    requires ProgramInv(g, w, pc) && Table(pc).At? && i < |g.objs| && g.objs[i].place == Fresh(w, Table(pc).n)
    requires q in g.objs[i].cells && q.At?
    ensures InHand(g, w, pc, q.n) > 0
  {
    var table := Table(pc).n;
    var f := FreshCount(w, table, q.n);
    forall x | x in g.objs ensures 0 <= f(x) {}
    if pc.job.Cloning? && pc.job.linked && g.objs[table].cells[pc.job.c] == q {
      var node := pc.job.node;
      var without := g.objs[node := g.objs[node].(cells := [Null])];
      SumUpdate(f, g.objs, node, without[node]);
      forall x | x in without ensures 0 <= f(x) {}
      SumAtLeast(f, without, table);
    } else {
      SumAtLeast(f, g.objs, i);
    }
  }

  lemma InHandIsNatural(g: State, w: nat, pc: Pc, n: nat)
    requires ProgramInv(g, w, pc)
    ensures InHand(g, w, pc, n) >= 0
  {
    if Table(pc).At? {
      var table := Table(pc).n;
      SumIsZero(FreshCount(w, table, n), g.objs);
      if pc.job.Cloning? && pc.job.linked && g.objs[table].cells[pc.job.c] == At(n) { CellIsHeld(g, w, pc, table, At(n)); }
    }
  }

  lemma InHandSame(g: State, g': State, w: nat, pc: Pc, n: nat)
    requires ProgramInv(g, w, pc) && Untouched(g, g', w)
    ensures InHand(g', w, pc, n) == InHand(g, w, pc, n)
  {
    if Table(pc).At? {
      BuiltSame(g, g', w, Table(pc).n, n);
      assert IsOwn(g.objs[Table(pc).n], w);
    }
  }

  lemma BuildingStays(g: State, g': State, w: nat, pc: Pc)
    requires GraphInv(g) && GraphInv(g') && ProgramInv(g, w, pc) && Untouched(g, g', w) && Table(pc).At?
    requires w < |g'.holds| && forall n: nat :: g'.holds[w][n] >= InHand(g, w, pc, n)
    ensures Building(g', w, Table(pc).n)
  {
    var table := Table(pc).n;
    assert IsOwn(g.objs[table], w);
    forall i | 0 <= i < |g'.objs| ensures NewCells(g', w, table, i) {
      if g'.objs[i].place == Fresh(w, table) {
        assert IsOwn(g'.objs[i], w) && NewCells(g, w, table, i);
        forall q | q in g'.objs[i].cells ensures WillBeLinked(g', w, table, q) {
          assert WillBeLinked(g, w, table, q);
          if q.At? {
            CellIsHeld(g, w, pc, i, q);
            if g.objs[q.n].place.Linked? { HeldStaysLinked(g, g', w, q.n); } else { assert IsOwn(g.objs[q.n], w); }
          }
        }
      }
    }
  }

  lemma ProgramStays(g: State, g': State, w: nat, pc: Pc)
    requires GraphInv(g) && GraphInv(g') && ProgramInv(g, w, pc) && Untouched(g, g', w) && (pc.In? ==> SameCells(g, g'))
    requires w < |g'.holds| && forall n: nat :: g'.holds[w][n] >= InHand(g, w, pc, n)
    ensures ProgramInv(g', w, pc)
  {
    if pc.m.At? { assert IsOwn(g.objs[pc.m.n], w); }
    forall i | 0 <= i < |g'.objs| ensures OwnInv(g', w, pc, i) {
      if IsOwn(g'.objs[i], w) { assert OwnInv(g, w, pc, i); }
    }
    if pc.In? {
      PathStays(g, g', pc.path);
      if Table(pc).At? { BuildingStays(g, g', w, pc); }
      JobStays(g, g', w, pc);
    }
  }

  lemma JobStays(g: State, g': State, w: nat, pc: Pc)
    requires GraphInv(g) && GraphInv(g') && ProgramInv(g, w, pc) && Untouched(g, g', w) && pc.In? && SameCells(g, g')
    requires IsPath(g', pc.path) && (Table(pc).At? ==> Building(g', w, Table(pc).n))
    requires w < |g'.holds| && forall n: nat :: g'.holds[w][n] >= InHand(g, w, pc, n)
    ensures JobInv(g', w, pc)
  {
    var at := Last(pc.path);
    assert OnPath(g, pc.path, |pc.path| - 1) && CellInv(g, at.o);
    match pc.job
    case Cloning(table, c, node, linked) => assert IsOwn(g.objs[table], w) && IsOwn(g.objs[node], w);
    case Sharing(table, c, run) =>
      assert IsOwn(g.objs[table], w);
      SumIsZero(FreshCount(w, table, run), g.objs);
      HeldStaysLinked(g, g', w, run);
    case _ =>
  }

  lemma AccountStays(g: State, g': State, w: nat, worker: Worker, worker': Worker, n: nat)
    requires w < |g.holds| == |g'.holds| && ProgramInv(g, w, worker.pc) && Accounted(g, w, worker, n) && worker'.pc == worker.pc
    requires Untouched(g, g', w) && g'.holds[w][n] + worker.pending[n] == g.holds[w][n] + worker'.pending[n]
    ensures Accounted(g', w, worker', n)
    ensures g'.holds[w][n] >= InHand(g, w, worker.pc, n) && g'.holds[w][n] >= worker'.pending[n]
  {
    InHandSame(g, g', w, worker.pc, n);
    InHandIsNatural(g, w, worker.pc, n);
  }

  /** A step that leaves a writer's program alone, and gives it as many references as it is to release, keeps its invariant. */
  lemma WriterStays(g: State, g': State, w: nat, worker: Worker, worker': Worker)
    requires GraphInv(g) && GraphInv(g') && w < |g.holds| == |g'.holds| && WriterInv(g, w, worker) && worker'.pc == worker.pc
    requires Untouched(g, g', w) && (worker.pc.In? ==> SameCells(g, g'))
    requires forall n: nat :: g'.holds[w][n] + worker.pending[n] == g.holds[w][n] + worker'.pending[n]
    requires forall n | n in worker'.pending && n !in worker.pending :: n < |g'.objs| && g'.objs[n].place.Linked?
    ensures WriterInv(g', w, worker')
  {
    forall n: nat
      ensures Accounted(g', w, worker', n)
      ensures g'.holds[w][n] >= InHand(g, w, worker.pc, n) && g'.holds[w][n] >= worker'.pending[n]
    {
      assert Accounted(g, w, worker, n);
      AccountStays(g, g', w, worker, worker', n);
    }
    ProgramStays(g, g', w, worker.pc);
    forall n | n in worker'.pending && n in worker.pending ensures n < |g'.objs| && g'.objs[n].place.Linked? {
      HeldStaysLinked(g, g', w, n);
    }
  }

  // ---------- The steps of a program ----------

  /** The program of `w` takes the step `a` from `g`; what it does to shared memory is a step of the machine of HazardGraph, and
      what it has to say about its references stays true. */
  ghost predicate Fits(g: State, w: nat, worker: Worker, a: Action)
    requires HasLock(g, worker.pc, a) && w < |g.holds|
  {
    var g' := Graph(g, w, worker, a);
    && (g' == g || WriterMoves(g, g'))
    && |g'.holds| == |g.holds|
    && WriterInv(g', w, WorkerAfter(g, worker, a))
  }

  /** The cell that a walk has come to is a cell of the segment or of a linked object, and leads to a linked object or to none. */
  lemma EndOfPath(g: State, path: seq<Cell>)
    requires Inv(g) && IsPath(g, path)
    ensures InGraph(g, Last(path)) && Live(g, Last(path).o)
    ensures Content(g, Last(path)).At? ==> Leads(g, Last(path)) && g.objs[Content(g, Last(path)).n].place.Linked?
    ensures |path| >= 2 ==> Last(path).o != 0
  {
    assert OnPath(g, path, |path| - 1) && CellInv(g, Last(path).o);
    if |path| >= 2 {
      assert OnPath(g, path, |path| - 2) && CellInv(g, path[|path| - 2].o);
      assert CountInv(g, Last(path).o);
    }
  }

  lemma WalkFits(g: State, w: nat, worker: Worker, a: Action)
    requires Ready(g, w, worker, a)
    requires a.Walk? || a.Restart? || a.Find? || a.Put?
    ensures Fits(g, w, worker, a)
  {
    var after := WorkerAfter(g, worker, a);
    EndOfPath(g, worker.pc.path);
    assert CountInv(g, 0);
    forall i | 0 <= i < |after.pc.path| ensures OnPath(g, after.pc.path, i) {
      if i < |worker.pc.path| { assert OnPath(g, worker.pc.path, i); }
    }
    forall i | 0 <= i < |g.objs| ensures OwnInv(g, w, after.pc, i) { assert OwnInv(g, w, worker.pc, i); }
    forall n: nat ensures Accounted(g, w, after, n) { assert Accounted(g, w, worker, n); }
  }

  /** Acquiring changes no cell and no place. */
  lemma AcquireIsUntouched(g: State, w: nat, n: nat, v: nat)
    requires w < |g.holds| && n < |g.objs| && g.objs[n].place.Linked?
    ensures Untouched(g, Acquired(g, w, n), v) && SameCells(g, Acquired(g, w, n))
  {
  }

  lemma AcquireNextIsAStep(g: State, w: nat, worker: Worker)
    requires Ready(g, w, worker, AcquireNext)
    ensures Acquire(g, w, worker.pc.job.node, 0, Graph(g, w, worker, AcquireNext))
    ensures g.objs[worker.pc.job.next.n].place.Linked?
  {
    EndOfPath(g, worker.pc.path);
    assert CellInv(g, worker.pc.job.node);
  }

  lemma AcquireNextKeepsAccount(g: State, w: nat, worker: Worker, n: nat)
    requires w < |g.holds| && Accounted(g, w, worker, n) && HasLock(g, worker.pc, AcquireNext)
    ensures var g' := Graph(g, w, worker, AcquireNext);
      |g'.holds| == |g.holds| && Accounted(g', w, WorkerAfter(g, worker, AcquireNext), n) && g'.holds[w][n] >= g.holds[w][n]
  {
  }

  lemma AcquireNextFits(g: State, w: nat, worker: Worker)
    requires Ready(g, w, worker, AcquireNext)
    ensures Fits(g, w, worker, AcquireNext)
  {
    var pc, job, after := worker.pc, worker.pc.job, WorkerAfter(g, worker, AcquireNext);
    var g' := Graph(g, w, worker, AcquireNext);
    AcquireNextIsAStep(g, w, worker);
    AcquireKeepsGraph(g, w, job.node, 0, g');
    AcquireIsUntouched(g, w, job.next.n, w);
    forall n: nat ensures Accounted(g', w, after, n) && g'.holds[w][n] >= InHand(g, w, pc, n) {
      assert Accounted(g, w, worker, n);
      AcquireNextKeepsAccount(g, w, worker, n);
    }
    ProgramStays(g, g', w, pc);
    forall i | 0 <= i < |g'.objs| ensures OwnInv(g', w, after.pc, i) { assert OwnInv(g', w, pc, i); }
  }

  function LinkTo(job: Job, a: Action): Ptr
    requires if a.LinkNext? then job.Replacing? else job.Inserting?
  {
    if a.LinkNext? then job.next else job.head
  }

  lemma LinkIsAStep(g: State, w: nat, worker: Worker, a: Action)
    requires Ready(g, w, worker, a) && (a.LinkNext? || a.LinkHead?)
    ensures SetFresh(g, w, worker.pc.m.n, 0, LinkTo(worker.pc.job, a), Graph(g, w, worker, a))
  {
    EndOfPath(g, worker.pc.path);
    if a.LinkNext? { assert CellInv(g, worker.pc.job.node); }
  }

  lemma LinkKeepsProgram(g: State, w: nat, worker: Worker, a: Action)
    requires Ready(g, w, worker, a) && (a.LinkNext? || a.LinkHead?)
    ensures ProgramInv(Graph(g, w, worker, a), w, WorkerAfter(g, worker, a).pc)
  {
    var pc, after := worker.pc, WorkerAfter(g, worker, a);
    var g' := Graph(g, w, worker, a);
    LinkIsAStep(g, w, worker, a);
    SetFreshKeepsGraph(g, w, pc.m.n, 0, LinkTo(pc.job, a), g');
    PathStays(g, g', pc.path);
    forall i | 0 <= i < |g'.objs| ensures OwnInv(g', w, after.pc, i) { assert OwnInv(g, w, pc, i); }
  }

  /** The new node is made to lead somewhere. */
  lemma LinkFits(g: State, w: nat, worker: Worker, a: Action)
    requires Ready(g, w, worker, a) && (a.LinkNext? || a.LinkHead?)
    ensures Fits(g, w, worker, a)
  {
    LinkIsAStep(g, w, worker, a);
    LinkKeepsProgram(g, w, worker, a);
    forall n: nat ensures Accounted(Graph(g, w, worker, a), w, WorkerAfter(g, worker, a), n) { assert Accounted(g, w, worker, n); }
  }

  // ---------- The stores ----------

  /** The new cells of a store that publishes only the new node. */
  lemma NewNodeCounts(g: State, w: nat, pc: Pc, n: nat)
    requires ProgramInv(g, w, pc) && Table(pc) == Null
    ensures pc.m.At? ==> Sum(FreshCount(w, pc.m.n, n), g.objs) == One(NodeCell(pc), n)
    ensures pc.m.Null? ==> Sum(FreshCount(w, |g.objs|, n), g.objs) == 0
  {
    forall i | 0 <= i < |g.objs| && (pc.m.At? ==> i != pc.m.n) ensures !IsOwn(g.objs[i], w) { assert OwnInv(g, w, pc, i); }
    if pc.m.At? { OnlyOneCounts(FreshCount(w, pc.m.n, n), g.objs, pc.m.n); } else { SumIsZero(FreshCount(w, |g.objs|, n), g.objs); }
  }

  /** Erasing and replacing: the references balance. */
  lemma StoreNextIsStore(g: State, w: nat, worker: Worker)
    requires Ready(g, w, worker, StoreNext)
    ensures var pc, at := worker.pc, Last(worker.pc.path);
      Store(g, w, at.o, at.c, if pc.m.At? then pc.m else pc.job.next, if pc.m.At? then pc.m.n else |g.objs|,
            worker.pending + multiset{pc.job.node}, Graph(g, w, worker, StoreNext))
  {
    var pc, at := worker.pc, Last(worker.pc.path);
    var p, tag := if pc.m.At? then pc.m else pc.job.next, if pc.m.At? then pc.m.n else |g.objs|;
    var keep := worker.pending + multiset{pc.job.node};
    EndOfPath(g, pc.path);
    assert CellInv(g, pc.job.node);
    forall n: nat
      ensures keep[n] + One(p, n) + Sum(FreshCount(w, tag, n), g.objs) == g.holds[w][n] + One(g.objs[at.o].cells[at.c], n)
    {
      assert Accounted(g, w, worker, n);
      NewNodeCounts(g, w, pc, n);
    }
    forall i | 0 <= i < |g.objs| && g.objs[i].place == Fresh(w, tag) ensures At(i) == pc.m { assert OwnInv(g, w, pc, i); }
  }

  /** Inserting at the head of a bucket: the new node takes over the reference that the bucket had. */
  lemma StoreHeadIsStore(g: State, w: nat, worker: Worker)
    requires Ready(g, w, worker, StoreHead)
    ensures var pc, at := worker.pc, Last(worker.pc.path);
      Store(g, w, at.o, at.c, pc.m, pc.m.n, worker.pending, Graph(g, w, worker, StoreHead))
  {
    var pc, at := worker.pc, Last(worker.pc.path);
    EndOfPath(g, pc.path);
    forall n: nat
      ensures worker.pending[n] + One(pc.m, n) + Sum(FreshCount(w, pc.m.n, n), g.objs)
           == g.holds[w][n] + One(g.objs[at.o].cells[at.c], n)
    {
      assert Accounted(g, w, worker, n);
      NewNodeCounts(g, w, pc, n);
    }
    forall i | 0 <= i < |g.objs| && g.objs[i].place == Fresh(w, pc.m.n) ensures At(i) == pc.m { assert OwnInv(g, w, pc, i); }
  }

  lemma StoreMoves(g: State, w: nat, o: nat, c: nat, p: Ptr, tag: nat, keep: multiset<nat>, g': State)
    requires Store(g, w, o, c, p, tag, keep, g')
    ensures WriterMoves(g, g')
  {
  }

  /** What a store leaves behind: what it publishes is linked, and the root is as it was unless it is stored to. */
  lemma AfterStore(g: State, w: nat, o: nat, c: nat, p: Ptr, tag: nat, keep: multiset<nat>)
    requires GraphInv(g) && RootInv(g) && w < |g.holds| && IsCell(g, o, c) && (o == 0 ==> p.At?)
    ensures var g' := Stored(g, w, o, c, p, tag, keep);
      && RootInv(g') && OnPath(g', [ROOT], 0)
      && (forall i | 0 <= i < |g.objs| :: g'.objs[i].place == if g.objs[i].place == Fresh(w, tag) then Linked else g.objs[i].place)
      && (forall i | 0 <= i < |g.objs| && i != o :: g'.objs[i].cells == g.objs[i].cells)
  {
    assert CountInv(g, 0);
  }

  lemma StoreIsAStep(g: State, w: nat, worker: Worker, a: Action)
    requires Ready(g, w, worker, a) && (a.StoreNext? || a.StoreHead?)
    ensures var g' := Graph(g, w, worker, a);
      WriterMoves(g, g') && |g'.holds| == |g.holds| && g'.holds[w] == WorkerAfter(g, worker, a).pending
  {
    var pc, at := worker.pc, Last(worker.pc.path);
    if a.StoreNext? {
      StoreNextIsStore(g, w, worker);
      StoreMoves(g, w, at.o, at.c, if pc.m.At? then pc.m else pc.job.next, if pc.m.At? then pc.m.n else |g.objs|,
                 worker.pending + multiset{pc.job.node}, Graph(g, w, worker, a));
    } else {
      StoreHeadIsStore(g, w, worker);
      StoreMoves(g, w, at.o, at.c, pc.m, pc.m.n, worker.pending, Graph(g, w, worker, a));
      assert worker.pending + multiset{} == worker.pending;
    }
  }

  /** After the store that changes the map the writer has nothing unpublished left. */
  lemma StoreLeaves(g: State, w: nat, worker: Worker, a: Action)
    requires Ready(g, w, worker, a) && (a.StoreNext? || a.StoreHead?)
    ensures var g' := Graph(g, w, worker, a);
      && RootInv(g') && OnPath(g', [ROOT], 0)
      && |g'.objs| == |g.objs| && (forall i | 0 <= i < |g'.objs| :: !IsOwn(g'.objs[i], w))
      && forall n | n in WorkerAfter(g, worker, a).pending :: n < |g'.objs| && g'.objs[n].place.Linked?
  {
    var pc, at := worker.pc, Last(worker.pc.path);
    EndOfPath(g, pc.path);
    if a.StoreNext? {
      AfterStore(g, w, at.o, at.c, if pc.m.At? then pc.m else pc.job.next, if pc.m.At? then pc.m.n else |g.objs|,
                 worker.pending + multiset{pc.job.node});
    } else {
      AfterStore(g, w, at.o, at.c, pc.m, pc.m.n, worker.pending);
    }
    forall i | 0 <= i < |g.objs| && IsOwn(g.objs[i], w) ensures pc.m.At? && g.objs[i].place == Fresh(w, pc.m.n) {
      assert OwnInv(g, w, pc, i);
    }
  }

  lemma StoreFits(g: State, w: nat, worker: Worker, a: Action)
    requires Ready(g, w, worker, a) && (a.StoreNext? || a.StoreHead?)
    ensures Fits(g, w, worker, a) && RootInv(Graph(g, w, worker, a))
  {
    StoreIsAStep(g, w, worker, a);
    StoreLeaves(g, w, worker, a);
    NothingInHand(Graph(g, w, worker, a), w, WorkerAfter(g, worker, a));
  }

  lemma NothingInHand(g: State, w: nat, worker: Worker)
    requires w < |g.holds| && worker.pc == In(Null, [ROOT], Leaving) && g.holds[w] == worker.pending
    ensures forall n: nat :: Accounted(g, w, worker, n)
  {
  }

  // ---------- Building a new array ----------

  lemma BuiltAfterAlloc(g: State, w: nat, tag: nat, t: nat, cells: nat, n: nat)
    requires w < |g.holds|
    ensures Built(Allocated(g, w, t, cells), w, tag, n) == Built(g, w, tag, n)
  {
    var o := Obj(seq(cells, i => Null), 1, Fresh(w, t));
    SumAppend(FreshCount(w, tag, n), g.objs, o);
    assert At(n) !in o.cells;
  }

  lemma BuiltAfterSet(g: State, w: nat, tag: nat, o: nat, c: nat, p: Ptr, n: nat)
    requires IsCell(g, o, c) && g.objs[o].place == Fresh(w, tag)
    ensures Built(WithCell(g, o, c, p), w, tag, n) == Built(g, w, tag, n) + One(p, n) - One(g.objs[o].cells[c], n)
  {
    SumUpdate(FreshCount(w, tag, n), g.objs, o, WithCell(g, o, c, p).objs[o]);
  }

  lemma BuiltAfterAcquire(g: State, w: nat, tag: nat, m: nat, n: nat)
    requires w < |g.holds| && m < |g.objs| && !g.objs[m].place.Fresh?
    ensures Built(Acquired(g, w, m), w, tag, n) == Built(g, w, tag, n)
  {
    SumUpdate(FreshCount(w, tag, n), g.objs, m, Acquired(g, w, m).objs[m]);
  }

  /** Nothing is built yet. */
  lemma NothingBuilt(g: State, w: nat, pc: Pc, tag: nat, n: nat)
    requires ProgramInv(g, w, pc) && Table(pc) == Null && At(tag) != pc.m
    ensures Built(g, w, tag, n) == 0
  {
    forall i | 0 <= i < |g.objs| ensures FreshCount(w, tag, n)(g.objs[i]) == 0 { assert OwnInv(g, w, pc, i); }
    SumIsZero(FreshCount(w, tag, n), g.objs);
  }

  lemma GrowFits(g: State, w: nat, worker: Worker, buckets: nat)
    requires Ready(g, w, worker, Grow(buckets))
    ensures Fits(g, w, worker, Grow(buckets))
  {
    var pc, after, k := worker.pc, WorkerAfter(g, worker, Grow(buckets)), |g.objs|;
    var g' := Graph(g, w, worker, Grow(buckets));
    assert Alloc(g, w, k, buckets, g');
    AllocKeepsGraph(g, w, k, buckets, g');
    PathStays(g, g', pc.path);
    forall i | 0 <= i < |g'.objs| ensures OwnInv(g', w, after.pc, i) && NewCells(g', w, k, i) {
      if i < k { assert OwnInv(g, w, pc, i); }
    }
    forall n: nat ensures Accounted(g', w, after, n) {
      assert Accounted(g, w, worker, n);
      NothingBuilt(g, w, pc, k, n);
      BuiltAfterAlloc(g, w, k, k, buckets, n);
    }
    forall n | n in after.pending ensures n < |g'.objs| && g'.objs[n].place.Linked? {}
  }

  lemma CloneToFits(g: State, w: nat, worker: Worker, c: nat)
    requires Ready(g, w, worker, CloneTo(c))
    ensures Fits(g, w, worker, CloneTo(c))
  {
    var pc, after, k := worker.pc, WorkerAfter(g, worker, CloneTo(c)), |g.objs|;
    var table := pc.job.table;
    var g' := Graph(g, w, worker, CloneTo(c));
    assert Alloc(g, w, table, 1, g');
    AllocKeepsGraph(g, w, table, 1, g');
    PathStays(g, g', pc.path);
    forall i | 0 <= i < |g'.objs| ensures OwnInv(g', w, after.pc, i) && NewCells(g', w, table, i) {
      if i < k { assert OwnInv(g, w, pc, i) && NewCells(g, w, table, i); }
    }
    forall n: nat ensures Accounted(g', w, after, n) {
      assert Accounted(g, w, worker, n);
      BuiltAfterAlloc(g, w, table, table, 1, n);
    }
  }

  /** A store into an object that is being built. */
  lemma BuildingAfterSet(g: State, w: nat, table: nat, o: nat, c: nat, p: Ptr)
    requires Building(g, w, table) && IsCell(g, o, c) && g.objs[o].place == Fresh(w, table) && WillBeLinked(g, w, table, p)
    ensures Building(WithCell(g, o, c, p), w, table)
  {
    var g' := WithCell(g, o, c, p);
    forall i | 0 <= i < |g'.objs| ensures NewCells(g', w, table, i) {
      assert NewCells(g, w, table, i);
      forall q | g'.objs[i].place == Fresh(w, table) && q in g'.objs[i].cells ensures WillBeLinked(g', w, table, q) {
        if q in g.objs[i].cells { assert WillBeLinked(g, w, table, q); }
      }
    }
  }

  /** What `LinkClone`, `PutClone` and `PutRun` store, and where. */
  function Target(job: Job, a: Action): Cell
    requires if a.LinkClone? then job.Cloning? else if a.PutClone? then job.Cloning? else a.PutRun? && job.Sharing?
  {
    if a.LinkClone? then Cell(job.node, 0) else Cell(job.table, job.c)
  }

  function Value(g: State, job: Job, a: Action): Ptr
    requires if a.LinkClone? then job.Cloning? && IsCell(g, job.table, job.c)
             else if a.PutClone? then job.Cloning? else a.PutRun? && job.Sharing?
  {
    if a.LinkClone? then g.objs[job.table].cells[job.c] else if a.PutClone? then At(job.node) else At(job.run)
  }

  lemma SetNewIsAStep(g: State, w: nat, worker: Worker, a: Action)
    requires Ready(g, w, worker, a) && (a.LinkClone? || a.PutClone? || a.PutRun?)
    ensures var at, p := Target(worker.pc.job, a), Value(g, worker.pc.job, a);
      && IsCell(g, at.o, at.c) && g.objs[at.o].place == Fresh(w, worker.pc.job.table)
      && WillBeLinked(g, w, worker.pc.job.table, p) && Graph(g, w, worker, a) == WithCell(g, at.o, at.c, p)
  {
    var pc, table := worker.pc, worker.pc.job.table;
    assert NewCells(g, w, table, table) && (pc.job.Cloning? ==> NewCells(g, w, table, pc.job.node));
  }

  lemma SetNewKeepsAccount(g: State, w: nat, worker: Worker, a: Action, n: nat)
    requires Ready(g, w, worker, a) && (a.LinkClone? || a.PutClone? || a.PutRun?)
    ensures |Graph(g, w, worker, a).holds| == |g.holds| && Accounted(Graph(g, w, worker, a), w, WorkerAfter(g, worker, a), n)
  {
    SetNewIsAStep(g, w, worker, a);
    var at, p := Target(worker.pc.job, a), Value(g, worker.pc.job, a);
    assert Accounted(g, w, worker, n);
    BuiltAfterSet(g, w, worker.pc.job.table, at.o, at.c, p, n);
  }

  lemma SetNewKeepsProgram(g: State, w: nat, worker: Worker, a: Action)
    requires Ready(g, w, worker, a) && (a.LinkClone? || a.PutClone? || a.PutRun?)
    ensures WriterMoves(g, Graph(g, w, worker, a)) && ProgramInv(Graph(g, w, worker, a), w, WorkerAfter(g, worker, a).pc)
  {
    var pc, after, table := worker.pc, WorkerAfter(g, worker, a), worker.pc.job.table;
    var at, p := Target(pc.job, a), Value(g, pc.job, a);
    var g' := Graph(g, w, worker, a);
    SetNewIsAStep(g, w, worker, a);
    assert SetFresh(g, w, at.o, at.c, p, g');
    SetFreshKeepsGraph(g, w, at.o, at.c, p, g');
    BuildingAfterSet(g, w, table, at.o, at.c, p);
    PathStays(g, g', pc.path);
    forall i | 0 <= i < |g'.objs| ensures OwnInv(g', w, after.pc, i) { assert OwnInv(g, w, pc, i); }
  }

  lemma SetNewFits(g: State, w: nat, worker: Worker, a: Action)
    requires Ready(g, w, worker, a) && (a.LinkClone? || a.PutClone? || a.PutRun?)
    ensures Fits(g, w, worker, a)
  {
    SetNewIsAStep(g, w, worker, a);
    SetNewKeepsProgram(g, w, worker, a);
    forall n: nat ensures Accounted(Graph(g, w, worker, a), w, WorkerAfter(g, worker, a), n) {
      SetNewKeepsAccount(g, w, worker, a, n);
    }
  }

  lemma ShareToIsAStep(g: State, w: nat, worker: Worker, c: nat)
    requires Ready(g, w, worker, ShareTo(c))
    ensures var at := Last(worker.pc.path);
      Acquire(g, w, at.o, at.c, Graph(g, w, worker, ShareTo(c))) && g.objs[Content(g, at).n].place.Linked?
  {
    EndOfPath(g, worker.pc.path);
  }

  lemma ShareToKeepsAccount(g: State, w: nat, worker: Worker, c: nat, n: nat)
    requires w < |g.holds| && Accounted(g, w, worker, n) && HasLock(g, worker.pc, ShareTo(c))
    requires !g.objs[Content(g, Last(worker.pc.path)).n].place.Fresh?
    ensures var g' := Graph(g, w, worker, ShareTo(c));
      |g'.holds| == |g.holds| && Accounted(g', w, WorkerAfter(g, worker, ShareTo(c)), n) && g'.holds[w][n] >= g.holds[w][n]
  {
    BuiltAfterAcquire(g, w, worker.pc.job.table, Content(g, Last(worker.pc.path)).n, n);
  }

  lemma ShareToFits(g: State, w: nat, worker: Worker, c: nat)
    requires Ready(g, w, worker, ShareTo(c))
    ensures Fits(g, w, worker, ShareTo(c))
  {
    var pc, after, at := worker.pc, WorkerAfter(g, worker, ShareTo(c)), Last(worker.pc.path);
    var g' := Graph(g, w, worker, ShareTo(c));
    ShareToIsAStep(g, w, worker, c);
    AcquireKeepsGraph(g, w, at.o, at.c, g');
    AcquireIsUntouched(g, w, Content(g, at).n, w);
    forall n: nat ensures Accounted(g', w, after, n) && g'.holds[w][n] >= InHand(g, w, pc, n) {
      assert Accounted(g, w, worker, n);
      ShareToKeepsAccount(g, w, worker, c, n);
    }
    ProgramStays(g, g', w, pc);
    forall i | 0 <= i < |g'.objs| ensures OwnInv(g', w, after.pc, i) { assert OwnInv(g', w, pc, i); }
  }

  /** The one store that publishes the new array: it uses up all that the cells of the new objects need, and the reference to the
      array itself; what is left is the old array, which is then retired. */
  lemma PublishIsStore(g: State, w: nat, worker: Worker)
    requires Ready(g, w, worker, PublishTable)
    ensures var pc := worker.pc;
      Store(g, w, 0, 0, At(pc.job.table), pc.job.table, worker.pending + Ref(pc.m) + multiset{Content(g, ROOT).n},
            Graph(g, w, worker, PublishTable))
  {
    var pc, table := worker.pc, worker.pc.job.table;
    var keep := worker.pending + Ref(pc.m) + multiset{Content(g, ROOT).n};
    assert CountInv(g, 0);
    forall n: nat
      ensures keep[n] + One(At(table), n) + Sum(FreshCount(w, table, n), g.objs) == g.holds[w][n] + One(g.objs[0].cells[0], n)
    {
      assert Accounted(g, w, worker, n);
    }
    var published := Publish(g.objs, w, table);
    forall i | 0 <= i < |g.objs| && g.objs[i].place == Fresh(w, table)
      ensures forall q | q in g.objs[i].cells && q.At? :: q.n < |published| && published[q.n].place.Linked?
    {
      assert NewCells(g, w, table, i);
      forall q | q in g.objs[i].cells && q.At? ensures q.n < |published| && published[q.n].place.Linked? {
        assert WillBeLinked(g, w, table, q);
      }
    }
  }

  lemma PublishIsAStep(g: State, w: nat, worker: Worker)
    requires Ready(g, w, worker, PublishTable)
    ensures var g' := Graph(g, w, worker, PublishTable);
      && WriterMoves(g, g') && |g'.holds| == |g.holds|
      && g'.holds[w] == WorkerAfter(g, worker, PublishTable).pending + Ref(worker.pc.m)
  {
    var pc, table := worker.pc, worker.pc.job.table;
    var keep := worker.pending + Ref(pc.m) + multiset{Content(g, ROOT).n};
    PublishIsStore(g, w, worker);
    StoreMoves(g, w, 0, 0, At(table), table, keep, Graph(g, w, worker, PublishTable));
    assert keep == WorkerAfter(g, worker, PublishTable).pending + Ref(pc.m);
  }

  /** After the store only the writer's new node is left unpublished. */
  lemma PublishLeaves(g: State, w: nat, worker: Worker)
    requires Ready(g, w, worker, PublishTable)
    ensures var g', m := Graph(g, w, worker, PublishTable), worker.pc.m;
      && RootInv(g') && OnPath(g', [ROOT], 0) && |g'.objs| == |g.objs|
      && (forall i | 0 <= i < |g'.objs| && IsOwn(g'.objs[i], w) :: At(i) == m)
      && (m.At? ==> m.n < |g.objs| && g'.objs[m.n].place == Fresh(w, m.n) && g'.objs[m.n].cells == [Null])
      && forall n | n in WorkerAfter(g, worker, PublishTable).pending :: n < |g'.objs| && g'.objs[n].place.Linked?
  {
    var pc, table := worker.pc, worker.pc.job.table;
    AfterStore(g, w, 0, 0, At(table), table, worker.pending + Ref(pc.m) + multiset{Content(g, ROOT).n});
    assert CountInv(g, 0) && CellInv(g, 0);
    forall i | 0 <= i < |g.objs| && IsOwn(g.objs[i], w) ensures g.objs[i].place == Fresh(w, table) || At(i) == pc.m {
      assert OwnInv(g, w, pc, i);
    }
  }

  /** A writer that is back where it began, with nothing but its new node. */
  lemma StartsAgain(g: State, w: nat, worker: Worker)
    requires w < |g.holds| && worker.pc == In(worker.pc.m, [ROOT], Looking) && g.holds[w] == worker.pending + Ref(worker.pc.m)
    requires OnPath(g, [ROOT], 0) && forall n | n in worker.pending :: n < |g.objs| && g.objs[n].place.Linked?
    requires var m := worker.pc.m;
      && (forall i | 0 <= i < |g.objs| && IsOwn(g.objs[i], w) :: At(i) == m)
      && (m.At? ==> m.n < |g.objs| && g.objs[m.n].place == Fresh(w, m.n) && g.objs[m.n].cells == [Null])
    ensures WriterInv(g, w, worker)
  {
  }

  lemma PublishFits(g: State, w: nat, worker: Worker)
    requires Ready(g, w, worker, PublishTable)
    ensures Fits(g, w, worker, PublishTable) && RootInv(Graph(g, w, worker, PublishTable))
  {
    PublishIsAStep(g, w, worker);
    PublishLeaves(g, w, worker);
    StartsAgain(Graph(g, w, worker, PublishTable), w, WorkerAfter(g, worker, PublishTable));
  }

  /** A rehash that has cloned nothing, in the place of a clear. */
  function AsRehash(worker: Worker): Worker
    requires worker.pc.In? && worker.pc.job.Emptying?
  {
    Worker(In(worker.pc.m, worker.pc.path, Growing(worker.pc.job.table)), worker.pending)
  }

  lemma ClearAsRehash(g: State, w: nat, worker: Worker)
    requires Ready(g, w, worker, StoreEmpty)
    ensures HasLock(g, AsRehash(worker).pc, PublishTable) && WriterInv(g, w, AsRehash(worker))
  {
    var pc, rehash := worker.pc, AsRehash(worker);
    assert CountInv(g, 0) && CellInv(g, 0);
    forall i | 0 <= i < |g.objs| ensures OwnInv(g, w, rehash.pc, i) { assert OwnInv(g, w, pc, i); }
    forall n: nat ensures Accounted(g, w, rehash, n) { assert Accounted(g, w, worker, n); }
  }

  lemma SameStore(g: State, w: nat, worker: Worker)
    requires w < |g.holds| && HasLock(g, worker.pc, StoreEmpty) && HasLock(g, AsRehash(worker).pc, PublishTable)
    requires !IsStale(g, worker.pc, StoreEmpty)
    ensures Graph(g, w, AsRehash(worker), PublishTable) == Graph(g, w, worker, StoreEmpty)
    ensures WorkerAfter(g, worker, StoreEmpty).pending == WorkerAfter(g, AsRehash(worker), PublishTable).pending
  {
  }

  lemma EmptyLeaves(g: State, w: nat, worker: Worker)
    requires Ready(g, w, worker, StoreEmpty) && worker.pc.m == Null
    requires HasLock(g, AsRehash(worker).pc, PublishTable) && WriterInv(g, w, AsRehash(worker))
    requires Graph(g, w, AsRehash(worker), PublishTable) == Graph(g, w, worker, StoreEmpty)
    requires WorkerAfter(g, worker, StoreEmpty).pending == WorkerAfter(g, AsRehash(worker), PublishTable).pending
    ensures var g', after := Graph(g, w, worker, StoreEmpty), WorkerAfter(g, worker, StoreEmpty);
      && WriterMoves(g, g') && |g'.holds| == |g.holds| && g'.holds[w] == after.pending && RootInv(g') && OnPath(g', [ROOT], 0)
      && (forall i | 0 <= i < |g'.objs| :: !IsOwn(g'.objs[i], w))
      && forall n | n in after.pending :: n < |g'.objs| && g'.objs[n].place.Linked?
  {
    PublishIsAStep(g, w, AsRehash(worker));
    PublishLeaves(g, w, AsRehash(worker));
  }

  /** What a clear does is what a rehash does that has cloned nothing, if the array it has read is still the current one. */
  lemma EmptyFits(g: State, w: nat, worker: Worker)
    requires Ready(g, w, worker, StoreEmpty)
    requires !IsStale(g, worker.pc, StoreEmpty)
    ensures Fits(g, w, worker, StoreEmpty) && RootInv(Graph(g, w, worker, StoreEmpty))
  {
    ClearAsRehash(g, w, worker);
    SameStore(g, w, worker);
    EmptyLeaves(g, w, worker);
    NothingInHand(Graph(g, w, worker, StoreEmpty), w, WorkerAfter(g, worker, StoreEmpty));
  }

  // ---------- Every step keeps the invariant ----------

  lemma LockedFits(g: State, w: nat, worker: Worker, a: Action)
    requires Ready(g, w, worker, a) && !a.Leave?
    requires !IsStale(g, worker.pc, a)
    ensures Fits(g, w, worker, a)
  {
    match a
    case StoreEmpty => EmptyFits(g, w, worker);
    case AcquireNext => AcquireNextFits(g, w, worker);
    case LinkNext => LinkFits(g, w, worker, a);
    case LinkHead => LinkFits(g, w, worker, a);
    case StoreNext => StoreFits(g, w, worker, a);
    case StoreHead => StoreFits(g, w, worker, a);
    case Grow(buckets) => GrowFits(g, w, worker, buckets);
    case CloneTo(c) => CloneToFits(g, w, worker, c);
    case LinkClone => SetNewFits(g, w, worker, a);
    case PutClone => SetNewFits(g, w, worker, a);
    case ShareTo(c) => ShareToFits(g, w, worker, c);
    case PutRun => SetNewFits(g, w, worker, a);
    case PublishTable => PublishFits(g, w, worker);
    case _ => WalkFits(g, w, worker, a);
  }

  predicate Stores(a: Action) { a.StoreNext? || a.StoreHead? || a.PublishTable? || a.StoreEmpty? }

  lemma AllocIsUntouched(g: State, w: nat, tag: nat, cells: nat, v: nat)
    requires w < |g.holds| && v != w
    ensures Untouched(g, Allocated(g, w, tag, cells), v) && SameCells(g, Allocated(g, w, tag, cells))
  {
  }

  lemma SetIsUntouched(g: State, w: nat, o: nat, c: nat, p: Ptr, v: nat)
    requires IsCell(g, o, c) && IsOwn(g.objs[o], w) && v != w
    ensures Untouched(g, WithCell(g, o, c, p), v) && SameCells(g, WithCell(g, o, c, p))
  {
  }

  lemma StoreIsUntouched(g: State, w: nat, o: nat, c: nat, p: Ptr, tag: nat, keep: multiset<nat>, v: nat)
    requires w < |g.holds| && IsCell(g, o, c) && Live(g, o) && v != w
    ensures Untouched(g, Stored(g, w, o, c, p, tag, keep), v)
  {
  }

  /** What a writer does under the lock touches no object of another writer; and only the stores change published cells. */
  lemma LockedLeavesOthers(g: State, w: nat, worker: Worker, a: Action, v: nat)
    requires Ready(g, w, worker, a) && v != w && !a.Leave?
    ensures Untouched(g, Graph(g, w, worker, a), v) && (!Stores(a) ==> SameCells(g, Graph(g, w, worker, a)))
    ensures |Graph(g, w, worker, a).holds| == |g.holds| && (v < |g.holds| ==> Graph(g, w, worker, a).holds[v] == g.holds[v])
  {
    var pc, at := worker.pc, Last(worker.pc.path);
    EndOfPath(g, pc.path);
    match a
    case AcquireNext => assert CellInv(g, pc.job.node); AcquireIsUntouched(g, w, pc.job.next.n, v);
    case LinkNext => SetIsUntouched(g, w, pc.m.n, 0, pc.job.next, v);
    case LinkHead => SetIsUntouched(g, w, pc.m.n, 0, pc.job.head, v);
    case StoreNext =>
      StoreIsUntouched(g, w, at.o, at.c, if pc.m.At? then pc.m else pc.job.next, if pc.m.At? then pc.m.n else |g.objs|,
                       worker.pending + multiset{pc.job.node}, v);
    case StoreHead => StoreIsUntouched(g, w, at.o, at.c, pc.m, pc.m.n, worker.pending, v);
    case Grow(buckets) => AllocIsUntouched(g, w, |g.objs|, buckets, v);
    case CloneTo(_) => AllocIsUntouched(g, w, pc.job.table, 1, v);
    case LinkClone => SetIsUntouched(g, w, pc.job.node, 0, g.objs[pc.job.table].cells[pc.job.c], v);
    case PutClone => SetIsUntouched(g, w, pc.job.table, pc.job.c, At(pc.job.node), v);
    case ShareTo(_) => AcquireIsUntouched(g, w, Content(g, at).n, v);
    case PutRun => SetIsUntouched(g, w, pc.job.table, pc.job.c, At(pc.job.run), v);
    case PublishTable =>
      assert CountInv(g, 0);
      StoreIsUntouched(g, w, 0, 0, At(pc.job.table), pc.job.table, worker.pending + Ref(pc.m) + multiset{Content(g, ROOT).n}, v);
    case StoreEmpty =>
      assert CountInv(g, 0);
      StoreIsUntouched(g, w, 0, 0, At(pc.job.table), pc.job.table, worker.pending + Ref(pc.m) + multiset{pc.job.was}, v);
    case _ =>
  }

  /** A reference that is still to be released is one to a linked object, whose count is not zero. */
  lemma PendingIsHeld(g: State, w: nat, worker: Worker, n: nat)
    requires Inv(g) && w < |g.holds| && WriterInv(g, w, worker) && n in worker.pending
    ensures n in g.holds[w] && n < |g.objs| && g.objs[n].place.Linked? && g.objs[n].refcount > 0
  {
    assert Accounted(g, w, worker, n) && CountInv(g, n);
    InHandIsNatural(g, w, worker.pc, n);
  }

  lemma LetGoIsUntouched(g: State, w: nat, n: nat, v: nat)
    requires w < |g.holds| && n < |g.objs| && g.objs[n].place.Linked? && g.objs[n].refcount > 0
    ensures Untouched(g, LetGo(g, w, n), v) && SameCells(g, LetGo(g, w, n))
  {
  }

  /** A step of writer `w` keeps the invariant if it is a step of the machine of HazardGraph, keeps what `w` has to say, touches
      nothing of the others, and leaves cells alone that another writer may be looking at. */
  lemma StepOfOneKeepsInv(s: Map, s': Map, w: nat)
    requires MapInv(s) && w < |s.workers| == |s'.workers| && |s'.graph.holds| == |s.graph.holds|
    requires s'.graph == s.graph || WriterMoves(s.graph, s'.graph)
    requires WriterInv(s'.graph, w, s'.workers[w]) && RootInv(s'.graph)
    requires forall v | 0 <= v < |s.workers| && v != w :: s'.workers[v] == s.workers[v] && s'.graph.holds[v] == s.graph.holds[v]
    requires forall v: nat | v != w :: Untouched(s.graph, s'.graph, v)
    requires s.lock == HeldBy(w) || SameCells(s.graph, s'.graph)
    requires s'.workers[w].pc.In? <==> s'.lock == HeldBy(w)
    requires s'.lock == s.lock || (s.lock == Open && s'.lock == HeldBy(w)) || (s.lock == HeldBy(w) && s'.lock == Open)
    ensures MapInv(s')
  {
    GraphMoves(s.graph, s'.graph);
    forall v | 0 <= v < |s'.workers| ensures WriterInv(s'.graph, v, s'.workers[v]) {
      if v != w {
        assert WriterInv(s.graph, v, s.workers[v]) && (s.workers[v].pc.In? <==> s.lock == HeldBy(v));
        WriterStays(s.graph, s'.graph, v, s.workers[v], s'.workers[v]);
      }
    }
    forall v | 0 <= v < |s'.workers| ensures s'.workers[v].pc.In? <==> s'.lock == HeldBy(v) {
      assert s.workers[v].pc.In? <==> s.lock == HeldBy(v);
    }
  }

  lemma RootStays(g: State, g': State)
    requires GraphInv(g) && RootInv(g) && SameCells(g, g')
    ensures RootInv(g')
  {
    assert CountInv(g, 0);
  }

  lemma GraphMoves(g: State, g': State)
    requires Inv(g) && (g' == g || Moves(g, g'))
    ensures Inv(g')
  {
    if g' != g { StepKeepsInv(g, g'); }
  }

  lemma FinishFits(g: State, w: nat, worker: Worker, n: nat)
    requires Inv(g) && w < |g.holds| && WriterInv(g, w, worker) && n in worker.pending
    ensures n < |g.objs| && g.objs[n].refcount > 0 && Release(g, w, n, LetGo(g, w, n)) && SameCells(g, LetGo(g, w, n))
    ensures WriterInv(LetGo(g, w, n), w, Worker(worker.pc, worker.pending - multiset{n}))
  {
    PendingIsHeld(g, w, worker, n);
    ReleaseKeepsGraph(g, w, n, LetGo(g, w, n));
    LetGoIsUntouched(g, w, n, w);
    WriterStays(g, LetGo(g, w, n), w, worker, Worker(worker.pc, worker.pending - multiset{n}));
  }

  lemma FinishKeepsInv(s: Map, w: nat, n: nat)
    requires MapInv(s) && Enabled(s, w, Finish(n))
    ensures MapInv(Apply(s, w, Finish(n)))
  {
    var g, s' := s.graph, Apply(s, w, Finish(n));
    FinishFits(g, w, s.workers[w], n);
    forall v: nat ensures Untouched(g, s'.graph, v) { LetGoIsUntouched(g, w, n, v); }
    RootStays(g, s'.graph);
    StepOfOneKeepsInv(s, s', w);
  }

  lemma NewKeepsInv(s: Map, w: nat)
    requires MapInv(s) && Enabled(s, w, New)
    ensures MapInv(Apply(s, w, New))
  {
    var g, worker, k := s.graph, s.workers[w], |s.graph.objs|;
    var s' := Apply(s, w, New);
    assert Alloc(g, w, k, 1, s'.graph);
    forall i | 0 <= i < |s'.graph.objs| ensures OwnInv(s'.graph, w, s'.workers[w].pc, i) {
      if i < k { assert OwnInv(g, w, worker.pc, i); }
    }
    forall n: nat ensures Accounted(s'.graph, w, s'.workers[w], n) { assert Accounted(g, w, worker, n); }
    forall v: nat | v != w ensures Untouched(g, s'.graph, v) { AllocIsUntouched(g, w, k, 1, v); }
    AllocIsUntouched(g, w, k, 1, w + 1);
    RootStays(g, s'.graph);
    StepOfOneKeepsInv(s, s', w);
  }

  lemma DropIsUntouched(g: State, w: nat, n: nat, v: nat)
    requires w < |g.holds| && n < |g.objs| && IsOwn(g.objs[n], w) && v != w
    ensures Untouched(g, Dropped(g, w, n), v) && SameCells(g, Dropped(g, w, n))
  {
  }

  lemma DropKeepsInv(s: Map, w: nat)
    requires MapInv(s) && Enabled(s, w, Drop)
    ensures MapInv(Apply(s, w, Drop))
  {
    var g, worker, m := s.graph, s.workers[w], s.workers[w].pc.m.n;
    var s' := Apply(s, w, Drop);
    assert Accounted(g, w, worker, m);
    assert Discard(g, w, m, s'.graph);
    forall i | 0 <= i < |s'.graph.objs| ensures OwnInv(s'.graph, w, s'.workers[w].pc, i) { assert OwnInv(g, w, worker.pc, i); }
    forall n: nat ensures Accounted(s'.graph, w, s'.workers[w], n) { assert Accounted(g, w, worker, n); }
    forall v: nat | v != w ensures Untouched(g, s'.graph, v) { DropIsUntouched(g, w, m, v); }
    DropIsUntouched(g, w, m, w + 1);
    RootStays(g, s'.graph);
    StepOfOneKeepsInv(s, s', w);
  }

  lemma LockKeepsInv(s: Map, w: nat, a: Action)
    requires MapInv(s) && Enabled(s, w, a) && (a.Enter? || a.Leave? || a.ReadOld?)
    ensures MapInv(Apply(s, w, a))
  {
    var g, worker := s.graph, s.workers[w];
    var s' := Apply(s, w, a);
    assert CountInv(g, 0);
    if a.Enter? { assert OnPath(g, [ROOT], 0); }
    forall i | 0 <= i < |g.objs| ensures OwnInv(g, w, s'.workers[w].pc, i) { assert OwnInv(g, w, worker.pc, i); }
    forall n: nat ensures Accounted(g, w, s'.workers[w], n) { assert Accounted(g, w, worker, n); }
    StepOfOneKeepsInv(s, s', w);
  }

  lemma EnterClearKeepsInv(s: Map, w: nat, buckets: nat)
    requires MapInv(s) && Enabled(s, w, EnterClear(buckets))
    ensures MapInv(Apply(s, w, EnterClear(buckets)))
  {
    var g, worker, k := s.graph, s.workers[w], |s.graph.objs|;
    var s' := Apply(s, w, EnterClear(buckets));
    EnterClearFits(g, w, worker, buckets);
    forall v: nat | v != w ensures Untouched(g, s'.graph, v) { AllocIsUntouched(g, w, k, buckets, v); }
    AllocIsUntouched(g, w, k, buckets, w + 1);
    RootStays(g, s'.graph);
    StepOfOneKeepsInv(s, s', w);
  }

  lemma EnterClearFits(g: State, w: nat, worker: Worker, buckets: nat)
    requires Inv(g) && RootInv(g) && w < |g.holds| && WriterInv(g, w, worker) && worker.pc.Clears?
    ensures var g' := Allocated(g, w, |g.objs|, buckets);
      WriterMoves(g, g') && WriterInv(g', w, Worker(In(Null, [ROOT], Emptying(|g.objs|, worker.pc.seen)), worker.pending))
  {
    var pc, k := worker.pc, |g.objs|;
    var g', after := Allocated(g, w, k, buckets), Worker(In(Null, [ROOT], Emptying(k, worker.pc.seen)), worker.pending);
    assert Alloc(g, w, k, buckets, g');
    assert CountInv(g, 0);
    assert OnPath(g', [ROOT], 0);
    forall i | 0 <= i < |g'.objs| ensures OwnInv(g', w, after.pc, i) && NewCells(g', w, k, i) {
      if i < k { assert OwnInv(g, w, pc, i); }
    }
    forall n: nat ensures Accounted(g', w, after, n) {
      assert Accounted(g, w, worker, n);
      NothingBuilt(g, w, pc, k, n);
      BuiltAfterAlloc(g, w, k, k, buckets, n);
    }
  }

  lemma RootAfter(g: State, w: nat, worker: Worker, a: Action)
    requires Ready(g, w, worker, a) && !a.Leave?
    ensures RootInv(Graph(g, w, worker, a))
  {
    if a.PublishTable? {
      PublishFits(g, w, worker);
    } else if a.StoreEmpty? {
      var pc := worker.pc;
      AfterStore(g, w, 0, 0, At(pc.job.table), pc.job.table, worker.pending + Ref(pc.m) + multiset{pc.job.was});
    } else if a.StoreNext? || a.StoreHead? {
      StoreFits(g, w, worker, a);
    } else {
      LockedLeavesOthers(g, w, worker, a, w + 1);
      RootStays(g, Graph(g, w, worker, a));
    }
  }

  lemma InsideKeepsInv(s: Map, w: nat, a: Action)
    requires MapInv(s) && w < |s.workers| && HasLock(s.graph, s.workers[w].pc, a) && !a.Leave?
    requires !IsStale(s.graph, s.workers[w].pc, a)
    ensures MapInv(ApplyInside(s, w, a))
  {
    var g, worker := s.graph, s.workers[w];
    var s' := ApplyInside(s, w, a);
    LockedFits(g, w, worker, a);
    RootAfter(g, w, worker, a);
    forall v: nat | v != w
      ensures Untouched(g, s'.graph, v) && |s'.graph.holds| == |g.holds| && (v < |g.holds| ==> s'.graph.holds[v] == g.holds[v])
    {
      LockedLeavesOthers(g, w, worker, a, v);
    }
    StepOfOneKeepsInv(s, s', w);
  }

  lemma OutsideKeepsInv(s: Map, w: nat, a: Action)
    requires MapInv(s) && Enabled(s, w, a) && Outside(a)
    ensures MapInv(Apply(s, w, a))
  {
    if a.New? { NewKeepsInv(s, w); }
    else if a.Drop? { DropKeepsInv(s, w); }
    else if a.EnterClear? { EnterClearKeepsInv(s, w, a.buckets); }
    else if a.Finish? { FinishKeepsInv(s, w, a.n); }
    else { LockKeepsInv(s, w, a); }
  }

  lemma WriteKeepsInv(s: Map, w: nat, a: Action)
    requires MapInv(s) && Enabled(s, w, a) && !IsStale(s.graph, s.workers[w].pc, a)
    ensures MapInv(Apply(s, w, a))
  {
    if Outside(a) { OutsideKeepsInv(s, w, a); } else { InsideKeepsInv(s, w, a); }
  }

  lemma DeletesKeepsInv(s: Map, s': Map, k: nat, n: nat)
    requires MapInv(s) && Deletes(s, s', k, n)
    ensures MapInv(s')
  {
    var w := s.graph.reclaims[k].worker;
    assert ReclaimerMoves(s.graph, s'.graph);
    GraphMoves(s.graph, s'.graph);
    RootStays(s.graph, s'.graph);
    forall v | 0 <= v < |s'.workers| ensures WriterInv(s'.graph, v, s'.workers[v]) {
      DeletesKeepsWriter(s, s', k, n, v);
    }
  }

  lemma DeletesKeepsWriter(s: Map, s': Map, k: nat, n: nat, v: nat)
    requires MapInv(s) && Deletes(s, s', k, n) && v < |s.workers| && Inv(s'.graph)
    ensures |s'.graph.holds| == |s.graph.holds| && WriterInv(s'.graph, v, s'.workers[v])
  {
    var g, g' := s.graph, s'.graph;
    assert CellInv(g, n);
    forall m | m in Targets(g.objs[n].cells) ensures m < |g'.objs| && g'.objs[m].place.Linked? { TargetsCount(g.objs[n].cells, m); }
    WriterStays(g, g', v, s.workers[v], s'.workers[v]);
  }

  lemma RelocateIsUntouched(g: State, g': State, from: Place, to: Place, v: nat)
    requires g'.objs == Relocate(g.objs, from, to) && Counted(from) && Counted(to)
    requires !from.Linked? && !from.Root? && !to.Linked? && !to.Root?
    ensures Untouched(g, g', v) && SameCells(g, g')
  {
  }

  lemma ReclaimIsUntouched(g: State, g': State, v: nat)
    requires ReclaimerMoves(g, g')
    ensures Untouched(g, g', v) && SameCells(g, g')
  {
    if w: nat :| Append(g, w, g') {
      RelocateIsUntouched(g, g', Retired(w), InDomain, v);
    } else if w: nat :| TakeList(g, w, g') {
      RelocateIsUntouched(g, g', InDomain, Taken(|g.reclaims|), v);
    } else if k: nat :| AppendLeft(g, k, g') {
      RelocateIsUntouched(g, g', HazardGraph.Left(k), InDomain, v);
    }
  }

  lemma LooksIsUntouched(g: State, g': State, v: nat)
    requires ReclaimerMoves(g, g') || ReaderMoves(g, g')
    ensures Untouched(g, g', v) && SameCells(g, g')
  {
    if ReclaimerMoves(g, g') { ReclaimIsUntouched(g, g', v); } else { assert g'.objs == g.objs; }
  }

  lemma LooksKeepsInv(s: Map, s': Map)
    requires MapInv(s) && Looks(s, s')
    ensures MapInv(s')
  {
    GraphMoves(s.graph, s'.graph);
    LooksIsUntouched(s.graph, s'.graph, 0);
    RootStays(s.graph, s'.graph);
    forall v | 0 <= v < |s'.workers| ensures WriterInv(s'.graph, v, s'.workers[v]) {
      LooksIsUntouched(s.graph, s'.graph, v);
      WriterStays(s.graph, s'.graph, v, s.workers[v], s'.workers[v]);
    }
  }

  lemma MapStepKeepsInv(s: Map, s': Map)
    requires MapInv(s) && MapMoves(s, s')
    ensures MapInv(s')
  {
    if Writes(s, s') {
      var w: nat, a :| Enabled(s, w, a) && !IsStale(s.graph, s.workers[w].pc, a) && s' == Apply(s, w, a);
      WriteKeepsInv(s, w, a);
    } else if Looks(s, s') {
      LooksKeepsInv(s, s');
    } else {
      var k: nat, n: nat :| Deletes(s, s', k, n);
      DeletesKeepsInv(s, s', k, n);
    }
  }

  lemma MapInitInv(s: Map)
    requires MapInit(s)
    ensures MapInv(s)
  {
    InitIsInv(s.graph);
    var buckets: nat :| s.graph.objs == FirstObjects(buckets);
  }

  lemma MapRunKeepsInv(run: seq<Map>, i: nat)
    requires IsWriterRun(run) && i < |run|
    ensures MapInv(run[i])
  {
    forall s | MapInit(s) ensures MapInv(s) { MapInitInv(s); }
    forall s, s' | MapInv(s) && MapMoves(s, s') ensures MapInv(s') { MapStepKeepsInv(s, s'); }
    InvariantOfRun(MapInit, MapMoves, MapInv, run);
  }

  // ---------- A clear that is stale ----------

  /** The segment gives up its reference to `x`; the new objects bring theirs. */
  lemma DegreeOfReplaced(g: State, w: nat, table: nat, keep: multiset<nat>, x: nat)
    requires w < |g.holds| && RootInv(g) && GraphInv(g) && Content(g, ROOT) == At(x) && x != table
    ensures InDegree(Stored(g, w, 0, 0, At(table), table, keep), x) == InDegree(g, x) + Built(g, w, table, x) - 1
  {
    var published := Publish(g.objs, w, table);
    var g' := Stored(g, w, 0, 0, At(table), table, keep);
    assert CountInv(g, 0);
    PublishCounts(g.objs, w, table, x);
    SumUpdate(InCount(x), published, 0, g'.objs[0]);
    assert g.objs[0].cells == [At(x)] && g'.objs[0].cells == [At(table)];
    assert multiset([At(x)])[At(x)] == 1 && multiset([At(table)])[At(x)] == 0;
  }

  /** A clear that replaces another array than the one it retires leaves the count of the replaced array one too high. */
  lemma StaleClearMiscounts(s: Map, w: nat)
    requires MapInv(s) && Enabled(s, w, StoreEmpty) && IsStale(s.graph, s.workers[w].pc, StoreEmpty)
    ensures !MapInv(Apply(s, w, StoreEmpty))
  {
    var g, worker := s.graph, s.workers[w];
    var g', table, x := Graph(g, w, worker, StoreEmpty), worker.pc.job.table, Content(g, ROOT).n;
    var keep := worker.pending + Ref(worker.pc.m) + multiset{worker.pc.job.was};
    assert WriterInv(g, w, worker) && Accounted(g, w, worker, x);
    assert CountInv(g, 0) && CellInv(g, 0) && CountInv(g, x);
    DegreeOfReplaced(g, w, table, keep, x);
    SumUpdate(HoldCount(x), g.holds, w, keep);
    OffByOne(g', x, g);
  }

  lemma OffByOne(g': State, x: nat, g: State)
    requires 0 < x < |g'.objs| && x < |g.objs| && g'.objs[x].refcount == g.objs[x].refcount == InDegree(g, x) + Held(g, x)
    requires InDegree(g', x) + Held(g', x) == InDegree(g, x) + Held(g, x) - 1
    ensures !GraphInv(g')
  {
    assert !CountInv(g', x);
  }

  /** A clear keeps the counts right if and only if the array that it has read before it took the lock is still the current one. */
  lemma ClearIsRightIff(s: Map, w: nat)
    requires MapInv(s) && Enabled(s, w, StoreEmpty)
    ensures MapInv(Apply(s, w, StoreEmpty)) <==> !IsStale(s.graph, s.workers[w].pc, StoreEmpty)
  {
    if IsStale(s.graph, s.workers[w].pc, StoreEmpty) { StaleClearMiscounts(s, w); } else { WriteKeepsInv(s, w, StoreEmpty); }
  }

  /** Any step of a writer, stale or not. */
  ghost predicate AnyWrites(s: Map, s': Map) { exists w: nat, a :: Enabled(s, w, a) && s' == Apply(s, w, a) }

  /** Two writers, the first of which waits to clear array 1, as it has read; the segment leads to array `current`. */
  ghost predicate OneWaits(s: Map, current: nat) {
    && |s.workers| == |s.graph.holds| == 2 && s.workers[0] == Worker(Clears(Null, 1), multiset{})
    && 0 < current < |s.graph.objs| && s.graph.objs[0] == Obj([At(current)], 0, Root)
  }

  /** Both clears have read that the array is number 1. */
  ghost predicate BothWait(s: Map) {
    && OneWaits(s, 1) && s.lock == Open && s.workers[1] == s.workers[0]
    && |s.graph.objs| == 2 && s.graph.objs[1] == Obj([Null], 1, Linked)
  }

  /** The second one has put array 2 in its place. */
  ghost predicate SecondStored(s: Map) {
    && OneWaits(s, 2) && s.lock == HeldBy(1) && s.workers[1] == Worker(In(Null, [ROOT], Leaving), multiset{1})
    && |s.graph.objs| == 3 && s.graph.objs[1] == Obj([Null], 1, Linked) && s.graph.objs[2] == Obj([Null], 1, Linked)
  }

  /** It has retired array 1 and is done. */
  ghost predicate SecondDone(s: Map) {
    && OneWaits(s, 2) && s.lock == Open
    && |s.graph.objs| == 3 && s.graph.objs[1] == Obj([Null], 0, Retired(1)) && s.graph.objs[2] == Obj([Null], 1, Linked)
  }

  /** The first one is to retire array 1 again, and nothing leads to array 2, which nobody will release. */
  ghost predicate RetiredTwice(s: Map) {
    && |s.workers| > 0 && 1 in s.workers[0].pending
    && |s.graph.objs| == 4 && s.graph.objs[1].refcount == 0 && s.graph.objs[1].place == Retired(1)
    && s.graph.objs[2].refcount == 1 && forall o | 0 <= o < 4 :: At(2) !in s.graph.objs[o].cells
  }

  lemma BothRead() returns (run: seq<Map>)
    ensures IsRun(MapInit, AnyWrites, run) && BothWait(run[|run| - 1])
  {
    var idle := Worker(Out(Null), multiset{});
    var m0 := Map(State(FirstObjects(1), [multiset{}, multiset{}], [], [], []), Open, [idle, idle]);
    var m1 := Apply(m0, 0, ReadOld);
    var m2 := Apply(m1, 1, ReadOld);
    assert seq(1, i => Null) == [Null];
    run := [m0, m1, m2];
  }

  /** Taking the lock for a clear with one bucket. */
  lemma EnterClearIs(s: Map, w: nat) returns (s': Map)
    requires w < |s.workers| == |s.graph.holds| && s.workers[w].pc.Clears? && s.lock == Open
    ensures AnyWrites(s, s') && s'.lock == HeldBy(w)
    ensures s'.graph.objs == s.graph.objs + [Obj([Null], 1, Fresh(w, |s.graph.objs|))] && |s'.graph.holds| == |s.graph.holds|
    ensures s'.workers == s.workers[w :=
      Worker(In(s.workers[w].pc.m, [ROOT], Emptying(|s.graph.objs|, s.workers[w].pc.seen)), s.workers[w].pending)]
  {
    assert Enabled(s, w, EnterClear(1));
    s' := Apply(s, w, EnterClear(1));
    assert seq(1, i => Null) == [Null];
  }

  function Linking(o: Obj, unpublished: Place): Obj { if o.place == unpublished then o.(place := Linked) else o }

  lemma StoreEmptyIs(s: Map, w: nat) returns (s': Map)
    requires w < |s.workers| == |s.graph.holds| && s.workers[w].pc.In? && s.workers[w].pc.path == [ROOT]
    requires s.workers[w].pc.job.Emptying? && s.workers[w].pc.m == Null
    requires |s.graph.objs| > 0 && s.graph.objs[0].place.Root? && |s.graph.objs[0].cells| == 1
    ensures AnyWrites(s, s') && s'.lock == s.lock && |s'.graph.objs| == |s.graph.objs| && |s'.graph.holds| == |s.graph.holds|
    ensures s'.graph.objs[0] == s.graph.objs[0].(cells := [At(s.workers[w].pc.job.table)])
    ensures forall o | 0 < o < |s.graph.objs| ::
      s'.graph.objs[o] == Linking(s.graph.objs[o], Fresh(w, s.workers[w].pc.job.table))
    ensures s'.workers == s.workers[w :=
      Worker(In(Null, [ROOT], Leaving), s.workers[w].pending + multiset{s.workers[w].pc.job.was})]
  {
    assert Enabled(s, w, StoreEmpty);
    s' := Apply(s, w, StoreEmpty);
    assert s.graph.objs[0].cells[0 := At(s.workers[w].pc.job.table)] == [At(s.workers[w].pc.job.table)];
  }

  lemma SecondStores(s: Map) returns (mid: Map, s': Map)
    requires BothWait(s)
    ensures AnyWrites(s, mid) && AnyWrites(mid, s') && SecondStored(s')
  {
    mid := EnterClearIs(s, 1);
    s' := StoreEmptyIs(mid, 1);
    assert multiset{} + multiset{1} == multiset{1};
  }

  lemma SecondFinishes(s: Map) returns (mid: Map, s': Map)
    requires SecondStored(s)
    ensures AnyWrites(s, mid) && AnyWrites(mid, s') && SecondDone(s')
  {
    mid := Apply(s, 1, Leave);
    s' := Apply(mid, 1, Finish(1));
  }

  lemma FirstStores(s: Map) returns (mid: Map, s': Map)
    requires SecondDone(s)
    ensures AnyWrites(s, mid) && AnyWrites(mid, s') && RetiredTwice(s')
  {
    mid := EnterClearIs(s, 0);
    s' := StoreEmptyIs(mid, 0);
  }

  lemma GoesOn(run: seq<Map>, mid: Map, s': Map)
    requires IsRun(MapInit, AnyWrites, run) && AnyWrites(run[|run| - 1], mid) && AnyWrites(mid, s')
    ensures IsRun(MapInit, AnyWrites, run + [mid, s'])
  {
  }

  /** Two clears at the same time: both retire the same array, and the one that the first to finish has put in its place is lost. */
  lemma TwoClearsRetireOneArray() returns (run: seq<Map>)
    ensures IsRun(MapInit, AnyWrites, run) && RetiredTwice(run[|run| - 1])
  {
    run := BothRead();
    var m3, m4 := SecondStores(run[|run| - 1]);
    GoesOn(run, m3, m4);
    run := run + [m3, m4];
    var m5, m6 := SecondFinishes(m4);
    GoesOn(run, m5, m6);
    run := run + [m5, m6];
    var m7, m8 := FirstStores(m6);
    GoesOn(run, m7, m8);
    run := run + [m7, m8];
  }

  // ---------- What holds in every state of every run ----------

  /** The references to `n` that worker `w` has: those that it will release, and those of its program. */
  ghost function InProgress(s: Map, w: nat, n: nat): int
    requires w < |s.workers|
  {
    s.workers[w].pending[n] + InHand(s.graph, w, s.workers[w].pc, n)
  }

  ghost function AllInProgress(s: Map, n: nat, workers: nat): int
    requires workers <= |s.workers|
  {
    if workers == 0 then 0 else AllInProgress(s, n, workers - 1) + InProgress(s, workers - 1, n)
  }

  lemma {:induction false} HeldIsInProgress(s: Map, n: nat, workers: nat)
    requires MapInv(s) && workers <= |s.workers|
    ensures Sum(HoldCount(n), s.graph.holds[..workers]) == AllInProgress(s, n, workers)
  {
    if workers > 0 {
      HeldIsInProgress(s, n, workers - 1);
      assert s.graph.holds[..workers][..workers - 1] == s.graph.holds[..workers - 1];
      assert Accounted(s.graph, workers - 1, s.workers[workers - 1], n);
    }
  }

  /** Whatever inserts, replacements, erasures, rehashes, readers and reclaimers do at the same time, the reference count of every
      object is the number of cells that point to it, and the references that the programs have in their hands at that point. */
  lemma CountsAreExact(run: seq<Map>, i: nat, n: nat)
    requires IsWriterRun(run) && i < |run| && 0 < n < |run[i].graph.objs|
    ensures var s := run[i];
      s.graph.objs[n].refcount == InDegree(s.graph, n) + AllInProgress(s, n, |s.workers|)
  {
    MapRunKeepsInv(run, i);
    assert CountInv(run[i].graph, n);
    HeldIsInProgress(run[i], n, |run[i].workers|);
    assert run[i].graph.holds[..|run[i].workers|] == run[i].graph.holds;
  }

  ghost predicate AtRest(worker: Worker) { worker.pc == Out(Null) && worker.pending == multiset{} }

  lemma {:induction false} NothingInProgress(s: Map, n: nat, workers: nat)
    requires workers <= |s.workers| && forall w | 0 <= w < |s.workers| :: AtRest(s.workers[w])
    ensures AllInProgress(s, n, workers) == 0
  {
    if workers > 0 {
      NothingInProgress(s, n, workers - 1);
      assert AtRest(s.workers[workers - 1]);
    }
  }

  lemma PointedToIsLinked(g: State, n: nat)
    requires GraphInv(g) && n < |g.objs| && InDegree(g, n) != 0
    ensures g.objs[n].place.Linked?
  {
    SumIsZero(InCount(n), g.objs);
    var o :| 0 <= o < |g.objs| && InCount(n)(g.objs[o]) != 0;
    assert At(n) in g.objs[o].cells && CellInv(g, o);
  }

  /** So no operation leaks a reference or takes one too many: when no writer is at work, only cells are counted. */
  lemma CountsAtRest(run: seq<Map>, i: nat, n: nat)
    requires IsWriterRun(run) && i < |run| && 0 < n < |run[i].graph.objs|
    requires forall w | 0 <= w < |run[i].workers| :: AtRest(run[i].workers[w])
    ensures run[i].graph.objs[n].refcount == InDegree(run[i].graph, n)
    ensures run[i].graph.objs[n].place.Linked? <==> InDegree(run[i].graph, n) > 0
  {
    CountsAreExact(run, i, n);
    NothingInProgress(run[i], n, |run[i].workers|);
    MapRunKeepsInv(run, i);
    assert CountInv(run[i].graph, n);
    if InDegree(run[i].graph, n) > 0 { PointedToIsLinked(run[i].graph, n); }
    CountsAreNaturals(run[i].graph, n);
  }

  /** `acquire()` is only ever called on a linked object whose count is not zero, and so is `release()`. */
  lemma UsedCountsAreNotZero(run: seq<Map>, i: nat, w: nat, a: Action)
    requires IsWriterRun(run) && i < |run| && Enabled(run[i], w, a)
    ensures var s := run[i]; var g, worker := s.graph, s.workers[w];
      && (a.AcquireNext? ==> Live(g, worker.pc.job.next.n) && g.objs[worker.pc.job.next.n].refcount > 0)
      && (a.ShareTo? ==> var n := Content(g, Last(worker.pc.path)).n; Live(g, n) && g.objs[n].refcount > 0)
      && forall n | n in worker.pending :: Live(g, n) && g.objs[n].refcount > 0
  {
    MapRunKeepsInv(run, i);
    var g, worker := run[i].graph, run[i].workers[w];
    assert WriterInv(g, w, worker);
    forall n | n in worker.pending ensures Live(g, n) && g.objs[n].refcount > 0 { PendingIsHeld(g, w, worker, n); }
    if a.AcquireNext? || a.ShareTo? {
      EndOfPath(g, worker.pc.path);
      if a.AcquireNext? { assert CellInv(g, worker.pc.job.node); }
      var n := if a.AcquireNext? then worker.pc.job.next.n else Content(g, Last(worker.pc.path)).n;
      assert CountInv(g, n);
    }
  }

  /** The step that a writer which has the lock takes when it does not walk on. */
  function Due(g: State, pc: Pc): Action
    requires pc.In?
  {
    match pc.job
    case Replacing(_, next, acquired, linked) =>
      if next.At? && !acquired then AcquireNext else if pc.m.At? && !linked then LinkNext else StoreNext
    case Inserting(_, linked) => if linked then StoreHead else LinkHead
    case Growing(_) => PublishTable
    case Cloning(_, _, _, linked) => if linked then PutClone else LinkClone
    case Sharing(_, _, _) => PutRun
    case Emptying(_, _) => StoreEmpty
    case _ => Leave
  }

  /** No access under the lock ever goes astray: every object and cell that the next step names is there. */
  lemma WritersNeverFault(run: seq<Map>, i: nat, w: nat)
    requires IsWriterRun(run) && i < |run| && w < |run[i].workers| && run[i].workers[w].pc.In?
    ensures Enabled(run[i], w, Due(run[i].graph, run[i].workers[w].pc))
    ensures var path := run[i].workers[w].pc.path;
      path != [] && InGraph(run[i].graph, Last(path)) && Live(run[i].graph, Last(path).o)
  {
    MapRunKeepsInv(run, i);
    var g, worker := run[i].graph, run[i].workers[w];
    assert WriterInv(g, w, worker);
    EndOfPath(g, worker.pc.path);
    if worker.pc.job.Replacing? { assert CellInv(g, worker.pc.job.node); }
    assert CountInv(g, 0) && CellInv(g, 0);
  }

  /** Whatever any other thread does, a writer goes on building its new array as if it were alone. */
  lemma OthersKeepBuilding(s: Map, s': Map, w: nat, n: nat)
    requires MapInv(s) && MapMoves(s, s') && w < |s.workers| && Table(s.workers[w].pc).At?
    requires w < |s'.workers| && s'.workers[w].pc == s.workers[w].pc
    ensures w < |s'.graph.holds|
    ensures Building(s'.graph, w, Table(s.workers[w].pc).n)
    ensures InProgress(s', w, n) == s'.graph.holds[w][n]
  {
    MapStepKeepsInv(s, s');
    assert WriterInv(s'.graph, w, s'.workers[w]);
    assert Accounted(s'.graph, w, s'.workers[w], n);
  }

  /** No object that a validated hazard pointer protects is deleted, whatever the writers' programs do. */
  lemma ProtectedFromWriters(run: seq<Map>, i: nat, r: nat, j: nat)
    requires IsWriterRun(run) && i < |run| && r < |run[i].graph.readers|
    requires j in run[i].graph.readers[r].mine && run[i].graph.readers[r].mine[j].At?
    ensures var n := run[i].graph.readers[r].mine[j].n; n < |run[i].graph.objs| && !run[i].graph.objs[n].place.Deleted?
  {
    MapRunKeepsInv(run, i);
    assert ReaderInv(run[i].graph, r) && Protects(run[i].graph, j, run[i].graph.readers[r].mine[j].n);
  }
}
