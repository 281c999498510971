/** Hazard pointers (src/concurrent/hazptr.h, hazptr.hpp) together with the reference-counted nodes of the two hash maps that are
    built on them (src/concurrent/concurrent_hashmap_detail.h, hazptr/ConcurrentHashMap-detail.h), as a state machine.

    Objects are bucket arrays and nodes; their cells are the bucket slots and `next_`. Object 0 stands for the segment, whose cell
    points to the current bucket array. A node's reference count is meant to be the number of cells that point to it plus the
    references that some thread is holding on to for the moment; when the last one goes, the node is retired, and a reclaimer
    deletes it unless a hazard pointer record shows it. Readers walk from object to object, protecting the next one while
    the one they stand on is still protected.

    Threads that write or reclaim are workers, threads that read are readers: one thread of the program may be both. */
module HazardGraph {
  import opened Links
  import opened Runs
  import opened Sums

  datatype Place =
    | Root                          // the segment
    | Fresh(w: nat, tag: nat)       // allocated by worker `w`, not yet published; objects with one tag are published together
    | Linked
    | Retired(w: nat)               // in the private list of worker `w`
    | InDomain                      // in the manager's retired list
    | Taken(k: nat)                 // in the list that bulkReclaim number `k` works on
    | Left(k: nat)                  // found protected by it, to be appended again
    | Deleted

  datatype Obj = Obj(cells: seq<Ptr>, refcount: nat, place: Place)

  /** HazptrRecord */
  datatype Record = Record(active: bool, ptr: Ptr)

  /** One bulkReclaim: it has taken the list, then scans the records from the head down, then sweeps its list. */
  datatype Phase = TookList | Scanning(rest: nat) | Sweeping

  datatype Reclaim = Reclaim(worker: nat, phase: Phase, seen: set<Ptr>)

  datatype ReaderPc =
    | Free
    | Seek(rest: nat)                                       // acquire_record: records below `rest` are still to be looked at
    | Claim(j: nat)                                         // saw that record `j` is inactive; about to CAS it active
    | Load(dst: nat, src: Ptr, x: nat, c: nat)              // get_protected: about to load cell `c` of object `x`
    | Show(dst: nat, src: Ptr, x: nat, c: nat, p: Ptr)      // try_protect: about to store what it loaded into its record
    | Validate(dst: nat, src: Ptr, x: nat, c: nat, p: Ptr)  // about to load the cell again
    | Retract(dst: nat, src: Ptr, x: nat, c: nat, p: Ptr)   // the cell has changed to `p`; about to clear the record

  /** A reader owns records; `mine[j]` is the object that its record `j` protects, once validated. In a step that protects an
      object, `src` is the record (as a number) that protects the object whose cell is read, or Null for the segment. */
  datatype Reader = Reader(mine: map<nat, Ptr>, pc: ReaderPc)

  datatype State = State(
    objs: seq<Obj>,
    holds: seq<multiset<nat>>,     // per worker: the references it must still store somewhere or release
    reclaims: seq<Reclaim>,
    records: seq<Record>,          // the manager's record list, which only grows; the head is the last one
    readers: seq<Reader>)

  // ---------- Counting references ----------

  /** The cells of an object count as references from its publication to its deletion. */
  predicate Counted(p: Place) { !p.Fresh? && !p.Deleted? }

  function InCount(n: nat): Obj -> int { (o: Obj) => if Counted(o.place) then multiset(o.cells)[At(n)] else 0 }

  function FreshCount(w: nat, tag: nat, n: nat): Obj -> int {
    (o: Obj) => if o.place == Fresh(w, tag) then multiset(o.cells)[At(n)] else 0
  }

  function HoldCount(n: nat): multiset<nat> -> int { (h: multiset<nat>) => h[n] }

  /** How many cells point to object `n`. */
  ghost function InDegree(s: State, n: nat): int { Sum(InCount(n), s.objs) }

  ghost function Held(s: State, n: nat): int { Sum(HoldCount(n), s.holds) }

  function One(p: Ptr, n: nat): nat { if p == At(n) then 1 else 0 }

  predicate PtrOk(s: State, p: Ptr) { p.At? ==> p.n < |s.objs| }

  function SetObj(s: State, n: nat, o: Obj): State
    requires n < |s.objs|
  {
    s.(objs := s.objs[n := o])
  }

  // ---------- Writers ----------

  /** A new node or bucket array, with reference count 1. */
  function Allocated(s: State, w: nat, tag: nat, cells: nat): State
    requires w < |s.holds|
  {
    s.(objs := s.objs + [Obj(seq(cells, i => Null), 1, Fresh(w, tag))], holds := s.holds[w := s.holds[w] + multiset{|s.objs|}])
  }

  ghost predicate Alloc(s: State, w: nat, tag: nat, cells: nat, s': State) {
    w < |s.holds| && s' == Allocated(s, w, tag, cells)
  }

  predicate IsCell(s: State, o: nat, c: nat) { o < |s.objs| && c < |s.objs[o].cells| }

  function WithCell(s: State, o: nat, c: nat, p: Ptr): State
    requires IsCell(s, o, c)
  {
    SetObj(s, o, s.objs[o].(cells := s.objs[o].cells[c := p]))
  }

  /** A store into an object that is not published. */
  ghost predicate SetFresh(s: State, w: nat, o: nat, c: nat, p: Ptr, s': State) {
    && IsCell(s, o, c) && s.objs[o].place.Fresh? && s.objs[o].place.w == w && PtrOk(s, p)
    && s' == WithCell(s, o, c, p)
  }

  function Acquired(s: State, w: nat, n: nat): State
    requires w < |s.holds| && n < |s.objs|
  {
    SetObj(s, n, s.objs[n].(refcount := s.objs[n].refcount + 1)).(holds := s.holds[w := s.holds[w] + multiset{n}])
  }

  predicate Live(s: State, o: nat) { o < |s.objs| && (s.objs[o].place.Linked? || s.objs[o].place.Root?) }

  /** `acquire()` on the node that a published cell points to, under the lock of the segment. */
  ghost predicate Acquire(s: State, w: nat, o: nat, c: nat, s': State) {
    && w < |s.holds| && Live(s, o) && c < |s.objs[o].cells| && s.objs[o].cells[c].At? && s.objs[o].cells[c].n < |s.objs|
    && s' == Acquired(s, w, s.objs[o].cells[c].n)
  }

  function Publish(objs: seq<Obj>, w: nat, tag: nat): seq<Obj> {
    seq(|objs|, i requires 0 <= i < |objs| => if objs[i].place == Fresh(w, tag) then objs[i].(place := Linked) else objs[i])
  }

  /** A store into a cell publishes the objects with the tag; the worker is left with the references in `keep`. */
  function Stored(s: State, w: nat, o: nat, c: nat, p: Ptr, tag: nat, keep: multiset<nat>): State
    requires w < |s.holds| && IsCell(s, o, c)
  {
    var published := Publish(s.objs, w, tag);
    s.(objs := published[o := published[o].(cells := published[o].cells[c := p])], holds := s.holds[w := keep])
  }

  /** A store into a published cell, under the lock, for which every reference that it creates or removes is accounted for: the new
      value of the cell and the cells of the published objects use up references that the worker held or that the old value of
      the cell gave up, and the worker keeps the others. */
  ghost predicate Store(s: State, w: nat, o: nat, c: nat, p: Ptr, tag: nat, keep: multiset<nat>, s': State) {
    && w < |s.holds| && Live(s, o) && c < |s.objs[o].cells|
    && (forall n: nat ::
          keep[n] + One(p, n) + Sum(FreshCount(w, tag, n), s.objs) == s.holds[w][n] + One(s.objs[o].cells[c], n))
    && var published := Publish(s.objs, w, tag);
       && (p.At? ==> p.n < |published| && published[p.n].place.Linked?)
       && (forall i | 0 <= i < |s.objs| && s.objs[i].place == Fresh(w, tag) ::
             forall q | q in s.objs[i].cells && q.At? :: q.n < |published| && published[q.n].place.Linked?)
       && s' == Stored(s, w, o, c, p, tag, keep)
  }

  function LetGo(s: State, w: nat, n: nat): State
    requires w < |s.holds| && n < |s.objs| && s.objs[n].refcount > 0
  {
    var o := s.objs[n];
    SetObj(s, n, o.(refcount := o.refcount - 1, place := if o.refcount == 1 then Retired(w) else o.place)).(
      holds := s.holds[w := s.holds[w] - multiset{n}])
  }

  /** `release()`: the last reference retires the object. */
  ghost predicate Release(s: State, w: nat, n: nat, s': State) {
    && w < |s.holds| && n < |s.objs| && n in s.holds[w] && s.objs[n].place.Linked? && s.objs[n].refcount > 0
    && s' == LetGo(s, w, n)
  }

  function Dropped(s: State, w: nat, n: nat): State
    requires w < |s.holds| && n < |s.objs|
  {
    SetObj(s, n, s.objs[n].(refcount := 0, place := Deleted)).(holds := s.holds[w := s.holds[w] - multiset{n}])
  }

  /** A node that was not needed after all is deleted before it was ever published. */
  ghost predicate Discard(s: State, w: nat, n: nat, s': State) {
    && w < |s.holds| && n < |s.objs| && n in s.holds[w] && s.objs[n].place.Fresh? && s.objs[n].place.w == w
    && (forall q | q in s.objs[n].cells :: q == Null)
    && s' == Dropped(s, w, n)
  }

  // ---------- Reclaimers ----------

  function Relocate(objs: seq<Obj>, from: Place, to: Place): seq<Obj> {
    seq(|objs|, i requires 0 <= i < |objs| => if objs[i].place == from then objs[i].(place := to) else objs[i])
  }

  /** pushAlltoDomain: append the private list of worker `w`. */
  ghost predicate Append(s: State, w: nat, s': State) {
    s' == s.(objs := Relocate(s.objs, Retired(w), InDomain))
  }

  /** bulkReclaim begins: take the whole retired list with an exchange. */
  ghost predicate TakeList(s: State, w: nat, s': State) {
    && w < |s.holds|
    && s' == s.(objs := Relocate(s.objs, InDomain, Taken(|s.reclaims|)), reclaims := s.reclaims + [Reclaim(w, TookList, {})])
  }

  /** Only then load the head of the record list, and look at one record after the other. */
  ghost predicate Scan(s: State, k: nat, s': State) {
    && k < |s.reclaims|
    && var r := s.reclaims[k];
       match r.phase
       case TookList => s' == s.(reclaims := s.reclaims[k := r.(phase := Scanning(|s.records|))])
       case Scanning(rest) =>
         if rest == 0 then s' == s.(reclaims := s.reclaims[k := r.(phase := Sweeping)])
         else
           && rest <= |s.records|
           && s' == s.(reclaims := s.reclaims[k := r.(phase := Scanning(rest - 1), seen := r.seen + {s.records[rest - 1].ptr})])
       case Sweeping => false
  }

  function Targets(cells: seq<Ptr>): multiset<nat> {
    if cells == [] then multiset{}
    else Targets(cells[1..]) + (if cells[0].At? then multiset{cells[0].n} else multiset{})
  }

  /** The next object of the taken list: one that a record showed is left, any other is deleted, and its destructor has to release
      what its cells point to. */
  ghost predicate Sweep(s: State, k: nat, n: nat, s': State) {
    && k < |s.reclaims| && s.reclaims[k].phase.Sweeping? && s.reclaims[k].worker < |s.holds|
    && n < |s.objs| && s.objs[n].place == Taken(k)
    && var w := s.reclaims[k].worker;
       if At(n) in s.reclaims[k].seen then
         s' == SetObj(s, n, s.objs[n].(place := Left(k)))
       else
         s' == SetObj(s, n, s.objs[n].(place := Deleted)).(holds := s.holds[w := s.holds[w] + Targets(s.objs[n].cells)])
  }

  /** The protected objects are appended to the retired list again. */
  ghost predicate AppendLeft(s: State, k: nat, s': State) {
    s' == s.(objs := Relocate(s.objs, Left(k), InDomain))
  }

  // ---------- Readers ----------

  function SetReader(s: State, r: nat, reader: Reader): State
    requires r < |s.readers|
  {
    s.(readers := s.readers[r := reader])
  }

  function SetRecord(s: State, j: nat, record: Record): State
    requires j < |s.records|
  {
    s.(records := s.records[j := record])
  }

  /** acquire_record: look for an inactive record from the head of the list on, and push a new one if there is none. */
  ghost predicate AcquireRecord(s: State, r: nat, s': State) {
    && r < |s.readers|
    && var me := s.readers[r];
       match me.pc
       case Free => s' == SetReader(s, r, me.(pc := Seek(|s.records|)))
       case Seek(rest) =>
         if rest == 0 then
           s' == SetReader(s, r, Reader(me.mine[|s.records| := Null], Free)).(records := s.records + [Record(true, Null)])
         else
           && rest <= |s.records|
           && s' == SetReader(s, r, me.(pc := if s.records[rest - 1].active then Seek(rest - 1) else Claim(rest - 1)))
       case Claim(j) =>
         && j < |s.records|
         && if s.records[j].active then s' == SetReader(s, r, me.(pc := Seek(j)))
            else s' == SetRecord(SetReader(s, r, Reader(me.mine[j := Null], Free)), j, s.records[j].(active := true))
       case _ => false
  }

  /** The record is cleared, and can then be released. */
  ghost predicate ClearRecord(s: State, r: nat, j: nat, s': State) {
    && r < |s.readers| && s.readers[r].pc.Free? && j in s.readers[r].mine && j < |s.records|
    && var me := s.readers[r];
       s' == SetRecord(SetReader(s, r, me.(mine := me.mine[j := Null])), j, s.records[j].(ptr := Null))
  }

  ghost predicate ReleaseRecord(s: State, r: nat, j: nat, s': State) {
    && r < |s.readers| && s.readers[r].pc.Free? && j in s.readers[r].mine && j < |s.records| && s.readers[r].mine[j] == Null
    && var me := s.readers[r];
       s' == SetRecord(SetReader(s, r, me.(mine := me.mine - {j})), j, s.records[j].(active := false))
  }

  /** get_protected on a cell of the segment, or of an object that another record of the reader protects. */
  ghost predicate StartProtect(s: State, r: nat, dst: nat, src: Ptr, c: nat, s': State) {
    && r < |s.readers| && s.readers[r].pc.Free? && dst in s.readers[r].mine
    && var me := s.readers[r];
       && (src.At? ==> src.n != dst && src.n in me.mine && me.mine[src.n].At?)
       && var x := if src.At? then me.mine[src.n].n else 0;
          && x < |s.objs| && c < |s.objs[x].cells|
          && s' == SetReader(s, r, Reader(me.mine[dst := Null], Load(dst, src, x, c)))
  }

  ghost predicate Protect(s: State, r: nat, s': State) {
    && r < |s.readers|
    && var me := s.readers[r];
       match me.pc
       case Load(dst, src, x, c) =>
         && x < |s.objs| && c < |s.objs[x].cells|
         && s' == SetReader(s, r, me.(pc := Show(dst, src, x, c, s.objs[x].cells[c])))
       case Show(dst, src, x, c, p) =>
         && dst < |s.records|
         && s' == SetRecord(SetReader(s, r, me.(pc := Validate(dst, src, x, c, p))), dst, s.records[dst].(ptr := p))
       case Validate(dst, src, x, c, p) =>
         && x < |s.objs| && c < |s.objs[x].cells|
         && if s.objs[x].cells[c] == p then s' == SetReader(s, r, Reader(me.mine[dst := p], Free))
            else s' == SetReader(s, r, me.(pc := Retract(dst, src, x, c, s.objs[x].cells[c])))
       case Retract(dst, src, x, c, p) =>
         && dst < |s.records|
         && s' == SetRecord(SetReader(s, r, me.(pc := Show(dst, src, x, c, p))), dst, s.records[dst].(ptr := Null))
       case _ => false
  }

  // ---------- Runs ----------

  ghost predicate WriterMoves(s: State, s': State) {
    || (exists w: nat, tag: nat, cells: nat :: Alloc(s, w, tag, cells, s'))
    || (exists w: nat, o: nat, c: nat, p :: SetFresh(s, w, o, c, p, s'))
    || (exists w: nat, o: nat, c: nat :: Acquire(s, w, o, c, s'))
    || (exists w: nat, o: nat, c: nat, p, tag: nat, keep :: Store(s, w, o, c, p, tag, keep, s'))
    || (exists w: nat, n: nat :: Release(s, w, n, s'))
    || (exists w: nat, n: nat :: Discard(s, w, n, s'))
  }

  ghost predicate ReclaimerMoves(s: State, s': State) {
    || (exists w: nat :: Append(s, w, s'))
    || (exists w: nat :: TakeList(s, w, s'))
    || (exists k: nat :: Scan(s, k, s'))
    || (exists k: nat, n: nat :: Sweep(s, k, n, s'))
    || (exists k: nat :: AppendLeft(s, k, s'))
  }

  ghost predicate ReaderMoves(s: State, s': State) {
    || (exists r: nat :: AcquireRecord(s, r, s'))
    || (exists r: nat, j: nat :: ClearRecord(s, r, j, s'))
    || (exists r: nat, j: nat :: ReleaseRecord(s, r, j, s'))
    || (exists r: nat, dst: nat, src, c: nat :: StartProtect(s, r, dst, src, c, s'))
    || (exists r: nat :: Protect(s, r, s'))
  }

  ghost predicate Moves(s: State, s': State) { WriterMoves(s, s') || ReclaimerMoves(s, s') || ReaderMoves(s, s') }

  /** The constructor has published a first bucket array. */
  ghost predicate Init(s: State) {
    && (exists buckets: nat :: s.objs == FirstObjects(buckets)) && s.reclaims == [] && s.records == []
    && (forall w | 0 <= w < |s.holds| :: s.holds[w] == multiset{})
    && (forall r | 0 <= r < |s.readers| :: s.readers[r] == Reader(map[], Free))
  }

  function FirstObjects(buckets: nat): seq<Obj> { [Obj([At(1)], 0, Root), Obj(seq(buckets, i => Null), 1, Linked)] }

  ghost predicate IsMapRun(run: seq<State>) { IsRun(Init, Moves, run) }

  // ---------- The invariant ----------

  /** The reference count is the number of cells that point to the object and of references held; and it is positive exactly
      until the object is retired. */
  ghost predicate CountInv(s: State, n: nat)
    requires n < |s.objs|
  {
    && (n > 0 ==> s.objs[n].refcount == InDegree(s, n) + Held(s, n))
    && (n == 0 <==> s.objs[n].place.Root?)
    && (s.objs[n].place.Fresh? ==> s.objs[n].refcount == 1)
    && (n > 0 ==> (s.objs[n].refcount > 0 <==> s.objs[n].place.Fresh? || s.objs[n].place.Linked?))
  }

  /** A published cell points to an object that is linked. */
  ghost predicate CellInv(s: State, o: nat)
    requires o < |s.objs|
  {
    forall q | q in s.objs[o].cells && q.At? :: q.n < |s.objs| && (Counted(s.objs[o].place) ==> s.objs[q.n].place.Linked?)
  }

  ghost predicate WorkerInv(s: State, w: nat)
    requires w < |s.holds|
  {
    forall n | n in s.holds[w] :: n < |s.objs|
  }

  /** Reclaimer `k` cannot delete an object that record `j` protects: it will still see the record, or has seen it. */
  ghost predicate WillSee(r: Reclaim, j: nat, n: nat) {
    match r.phase
    case TookList => true
    case Scanning(rest) => j < rest || At(n) in r.seen
    case Sweeping => At(n) in r.seen
  }

  ghost predicate Protects(s: State, j: nat, n: nat) {
    && n < |s.objs| && !s.objs[n].place.Deleted? && Counted(s.objs[n].place)
    && (s.objs[n].place.Taken? ==> s.objs[n].place.k < |s.reclaims| && WillSee(s.reclaims[s.objs[n].place.k], j, n))
  }

  ghost predicate ReaderInv(s: State, r: nat)
    requires r < |s.readers|
  {
    var me := s.readers[r];
    && (forall j | j in me.mine :: j < |s.records| && s.records[j].active)
    && (forall j | j in me.mine && me.mine[j].At? :: s.records[j].ptr == me.mine[j] && Protects(s, j, me.mine[j].n))
    && (me.pc.Load? || me.pc.Show? || me.pc.Validate? || me.pc.Retract? ==>
          && me.pc.dst in me.mine && me.mine[me.pc.dst] == Null
          && (if me.pc.src.At? then me.pc.src.n in me.mine && me.mine[me.pc.src.n] == At(me.pc.x) else me.pc.x == 0))
    && (me.pc.Validate? ==> s.records[me.pc.dst].ptr == me.pc.p)
  }

  /** What concerns objects, cells and counts. */
  ghost predicate GraphInv(s: State) {
    && |s.objs| > 0
    && (forall n | 0 <= n < |s.objs| :: CountInv(s, n))
    && (forall o | 0 <= o < |s.objs| :: CellInv(s, o))
    && (forall w | 0 <= w < |s.holds| :: WorkerInv(s, w))
  }

  /** What concerns records, readers and reclaimers. */
  ghost predicate HazardInv(s: State) {
    && (forall r | 0 <= r < |s.readers| :: ReaderInv(s, r))
    && (forall r, r', j | 0 <= r < |s.readers| && 0 <= r' < |s.readers| && j in s.readers[r].mine && j in s.readers[r'].mine :: r == r')
    && (forall n | 0 <= n < |s.objs| && (s.objs[n].place.Taken? || s.objs[n].place.Left?) :: s.objs[n].place.k < |s.reclaims|)
  }

  ghost predicate Inv(s: State) { GraphInv(s) && HazardInv(s) }

  // ---------- Writers keep the counts ----------

  lemma CountsAreNaturals(s: State, n: nat)
    ensures InDegree(s, n) >= 0 && Held(s, n) >= 0
  {
    SumIsZero(InCount(n), s.objs);
    SumIsZero(HoldCount(n), s.holds);
  }

  /** An object that is not there yet has no references. */
  lemma NothingPointsBeyond(s: State, n: nat)
    requires GraphInv(s) && n >= |s.objs|
    ensures InDegree(s, n) == 0 && Held(s, n) == 0
  {
    forall i | 0 <= i < |s.objs| ensures InCount(n)(s.objs[i]) == 0 { assert CellInv(s, i); }
    forall w | 0 <= w < |s.holds| ensures HoldCount(n)(s.holds[w]) == 0 { assert WorkerInv(s, w); }
    SumIsZero(InCount(n), s.objs);
    SumIsZero(HoldCount(n), s.holds);
  }

  lemma AllocKeepsGraph(s: State, w: nat, tag: nat, cells: nat, s': State)
    requires GraphInv(s) && Alloc(s, w, tag, cells, s')
    ensures GraphInv(s')
  {
    forall n | 0 <= n < |s'.objs| ensures CountInv(s', n) {
      SumAppend(InCount(n), s.objs, s'.objs[|s.objs|]);
      SumUpdate(HoldCount(n), s.holds, w, s'.holds[w]);
      if n < |s.objs| { assert CountInv(s, n); } else { NothingPointsBeyond(s, n); }
    }
    forall o | 0 <= o < |s'.objs| ensures CellInv(s', o) { if o < |s.objs| { assert CellInv(s, o); } }
    forall v | 0 <= v < |s'.holds| ensures WorkerInv(s', v) { assert WorkerInv(s, v); }
  }

  lemma SetFreshKeepsGraph(s: State, w: nat, o: nat, c: nat, p: Ptr, s': State)
    requires GraphInv(s) && SetFresh(s, w, o, c, p, s')
    ensures GraphInv(s')
  {
    forall n | 0 <= n < |s'.objs| ensures CountInv(s', n) {
      assert CountInv(s, n);
      SumUpdate(InCount(n), s.objs, o, s'.objs[o]);
    }
    forall i | 0 <= i < |s'.objs| ensures CellInv(s', i) { assert CellInv(s, i); }
    forall v | 0 <= v < |s'.holds| ensures WorkerInv(s', v) { assert WorkerInv(s, v); }
  }

  lemma AcquireKeepsGraph(s: State, w: nat, o: nat, c: nat, s': State)
    requires GraphInv(s) && Acquire(s, w, o, c, s')
    ensures GraphInv(s')
  {
    var m := s.objs[o].cells[c].n;
    assert CellInv(s, o) && CountInv(s, m);
    forall n | 0 <= n < |s'.objs| ensures CountInv(s', n) {
      assert CountInv(s, n);
      SumUpdate(InCount(n), s.objs, m, s'.objs[m]);
      SumUpdate(HoldCount(n), s.holds, w, s'.holds[w]);
    }
    forall i | 0 <= i < |s'.objs| ensures CellInv(s', i) { assert CellInv(s, i); }
    forall v | 0 <= v < |s'.holds| ensures WorkerInv(s', v) { assert WorkerInv(s, v); }
  }

  /** Publishing the objects with a tag makes their cells count. */
  lemma {:induction false} PublishCounts(objs: seq<Obj>, w: nat, tag: nat, n: nat)
    ensures Sum(InCount(n), Publish(objs, w, tag)) == Sum(InCount(n), objs) + Sum(FreshCount(w, tag, n), objs)
  {
    if objs != [] {
      var init := objs[..|objs| - 1];
      assert Publish(objs, w, tag)[..|objs| - 1] == Publish(init, w, tag);
      PublishCounts(init, w, tag, n);
    }
  }

  lemma StoreKeepsCounts(s: State, w: nat, o: nat, c: nat, p: Ptr, tag: nat, keep: multiset<nat>, s': State, n: nat)
    requires GraphInv(s) && Store(s, w, o, c, p, tag, keep, s') && n < |s.objs|
    ensures CountInv(s', n)
  {
    var published := Publish(s.objs, w, tag);
    assert CountInv(s, n);
    PublishCounts(s.objs, w, tag, n);
    SumUpdate(InCount(n), published, o, s'.objs[o]);
    SumUpdate(HoldCount(n), s.holds, w, keep);
    assert multiset(published[o].cells[c := p])[At(n)] == multiset(published[o].cells)[At(n)] - One(s.objs[o].cells[c], n) + One(p, n);
  }

  lemma StoreKeepsGraph(s: State, w: nat, o: nat, c: nat, p: Ptr, tag: nat, keep: multiset<nat>, s': State)
    requires GraphInv(s) && Store(s, w, o, c, p, tag, keep, s')
    ensures GraphInv(s')
  {
    forall n | 0 <= n < |s'.objs| ensures CountInv(s', n) { StoreKeepsCounts(s, w, o, c, p, tag, keep, s', n); }
    forall i | 0 <= i < |s'.objs| ensures CellInv(s', i) { assert CellInv(s, i); }
    forall v | 0 <= v < |s'.holds| ensures WorkerInv(s', v) {
      assert WorkerInv(s, v);
      if v == w {
        forall n | n in keep ensures n < |s.objs| {
          assert CellInv(s, o);
          assert WorkerInv(s, w);
          SumIsZero(FreshCount(w, tag, n), s.objs);
          assert keep[n] <= s.holds[w][n] + One(s.objs[o].cells[c], n);
        }
      }
    }
  }

  /** A reference count that drops to zero was the last cell's or holder's: nothing points to the object any more. */
  lemma NothingPointsTo(s: State, n: nat, i: nat)
    requires InDegree(s, n) == 0 && i < |s.objs| && Counted(s.objs[i].place)
    ensures At(n) !in s.objs[i].cells
  {
    SumIsZero(InCount(n), s.objs);
    assert InCount(n)(s.objs[i]) == 0;
  }

  lemma ReleaseKeepsGraph(s: State, w: nat, m: nat, s': State)
    requires GraphInv(s) && Release(s, w, m, s')
    ensures GraphInv(s')
  {
    assert CountInv(s, m);
    forall n | 0 <= n < |s'.objs| ensures CountInv(s', n) {
      assert CountInv(s, n);
      SumUpdate(InCount(n), s.objs, m, s'.objs[m]);
      SumUpdate(HoldCount(n), s.holds, w, s'.holds[w]);
    }
    CountsAreNaturals(s', m);
    assert CountInv(s', m);
    forall i | 0 <= i < |s'.objs| ensures CellInv(s', i) {
      assert CellInv(s, i);
      if s'.objs[m].refcount == 0 && Counted(s'.objs[i].place) { NothingPointsTo(s', m, i); }
    }
    forall v | 0 <= v < |s'.holds| ensures WorkerInv(s', v) { assert WorkerInv(s, v); }
  }

  lemma DiscardKeepsGraph(s: State, w: nat, m: nat, s': State)
    requires GraphInv(s) && Discard(s, w, m, s')
    ensures GraphInv(s')
  {
    assert CountInv(s, m);
    forall n | 0 <= n < |s'.objs| ensures CountInv(s', n) {
      assert CountInv(s, n);
      SumUpdate(InCount(n), s.objs, m, s'.objs[m]);
      SumUpdate(HoldCount(n), s.holds, w, s'.holds[w]);
    }
    forall i | 0 <= i < |s'.objs| ensures CellInv(s', i) { assert CellInv(s, i); }
    forall v | 0 <= v < |s'.holds| ensures WorkerInv(s', v) { assert WorkerInv(s, v); }
  }

  // ---------- Reclaimers keep the counts ----------

  lemma RelocateKeepsGraph(s: State, from: Place, to: Place, s': State)
    requires GraphInv(s) && s'.objs == Relocate(s.objs, from, to) && s'.holds == s.holds
    requires Counted(from) && Counted(to) && !from.Root? && !to.Root? && !from.Linked? && !to.Linked?
    ensures GraphInv(s')
  {
    forall n | 0 <= n < |s'.objs| ensures CountInv(s', n) {
      assert CountInv(s, n);
      SumAlike(InCount(n), s.objs, s'.objs);
    }
    forall i | 0 <= i < |s'.objs| ensures CellInv(s', i) { assert CellInv(s, i); }
    forall v | 0 <= v < |s'.holds| ensures WorkerInv(s', v) { assert WorkerInv(s, v); }
  }

  lemma {:induction false} TargetsCount(cells: seq<Ptr>, n: nat)
    ensures Targets(cells)[n] == multiset(cells)[At(n)]
  {
    if cells != [] {
      TargetsCount(cells[1..], n);
      assert cells == [cells[0]] + cells[1..];
    }
  }

  lemma SweepKeepsGraph(s: State, k: nat, m: nat, s': State)
    requires GraphInv(s) && Sweep(s, k, m, s')
    ensures GraphInv(s')
  {
    var w := s.reclaims[k].worker;
    assert CountInv(s, m) && CellInv(s, m);
    forall n | 0 <= n < |s'.objs| ensures CountInv(s', n) {
      assert CountInv(s, n);
      SumUpdate(InCount(n), s.objs, m, s'.objs[m]);
      SumUpdate(HoldCount(n), s.holds, w, s'.holds[w]);
      TargetsCount(s.objs[m].cells, n);
    }
    forall i | 0 <= i < |s'.objs| ensures CellInv(s', i) { assert CellInv(s, i); }
    forall v | 0 <= v < |s'.holds| ensures WorkerInv(s', v) {
      assert WorkerInv(s, v);
      forall n | n in s'.holds[v] ensures n < |s.objs| { TargetsCount(s.objs[m].cells, n); }
    }
  }

  // ---------- Protection survives every step ----------

  /** The step touches no record, reader or reclaimer, and takes no object out of the count. */
  ghost predicate LeavesHazards(s: State, s': State) {
    && s'.readers == s.readers && s'.records == s.records && s'.reclaims == s.reclaims && |s'.objs| >= |s.objs|
    && (forall n | 0 <= n < |s.objs| && Counted(s.objs[n].place) :: Counted(s'.objs[n].place))
    && (forall n | 0 <= n < |s'.objs| && (s'.objs[n].place.Taken? || s'.objs[n].place.Left?) ::
          n < |s.objs| && s'.objs[n].place == s.objs[n].place)
  }

  /** A step of a writer or reclaimer that leaves records, readers and reclaimers alone, and takes or deletes no object that some
      record protects. */
  lemma WorkKeepsHazards(s: State, s': State)
    requires HazardInv(s) && LeavesHazards(s, s')
    ensures HazardInv(s')
  {
    forall r | 0 <= r < |s'.readers| ensures ReaderInv(s', r) { assert ReaderInv(s, r); }
  }

  lemma TakeKeepsHazards(s: State, w: nat, s': State)
    requires HazardInv(s) && TakeList(s, w, s')
    ensures HazardInv(s')
  {
    forall r | 0 <= r < |s'.readers| ensures ReaderInv(s', r) { assert ReaderInv(s, r); }
  }

  /** A scanned record stays a protection: if it shows an object, the reclaimer has now seen it. */
  lemma ScanKeepsHazards(s: State, k: nat, s': State)
    requires HazardInv(s) && Scan(s, k, s')
    ensures HazardInv(s')
  {
    forall r | 0 <= r < |s'.readers| ensures ReaderInv(s', r) { assert ReaderInv(s, r); }
  }

  /** Sweeping never deletes an object that some reader protects. */
  lemma SweepKeepsHazards(s: State, k: nat, m: nat, s': State)
    requires HazardInv(s) && Sweep(s, k, m, s')
    ensures HazardInv(s')
  {
    forall r | 0 <= r < |s'.readers| ensures ReaderInv(s', r) {
      assert ReaderInv(s, r);
      forall j | j in s.readers[r].mine && s.readers[r].mine[j].At? ensures Protects(s', j, s.readers[r].mine[j].n) {
        assert Protects(s, j, s.readers[r].mine[j].n);
      }
    }
  }

  /** A record that is claimed while it is inactive, or new, belongs to nobody else. */
  lemma AcquireRecordKeepsHazards(s: State, r: nat, s': State)
    requires HazardInv(s) && AcquireRecord(s, r, s')
    ensures HazardInv(s')
  {
    var claimed := if s.readers[r].pc.Claim? then s.readers[r].pc.j else |s.records|;
    forall q | 0 <= q < |s.readers| && (claimed == |s.records| || !s.records[claimed].active) ensures claimed !in s.readers[q].mine {
      assert ReaderInv(s, q);
    }
    assert ReaderInv(s, r);
    forall q | 0 <= q < |s'.readers| ensures ReaderInv(s', q) { assert ReaderInv(s, q); }
  }

  lemma ClearRecordKeepsHazards(s: State, r: nat, j: nat, s': State)
    requires HazardInv(s) && ClearRecord(s, r, j, s')
    ensures HazardInv(s')
  {
    assert ReaderInv(s, r);
    forall q | 0 <= q < |s'.readers| ensures ReaderInv(s', q) { assert ReaderInv(s, q); }
  }

  lemma ReleaseRecordKeepsHazards(s: State, r: nat, j: nat, s': State)
    requires HazardInv(s) && ReleaseRecord(s, r, j, s')
    ensures HazardInv(s')
  {
    assert ReaderInv(s, r);
    forall q | 0 <= q < |s'.readers| ensures ReaderInv(s', q) { assert ReaderInv(s, q); }
  }

  lemma StartKeepsHazards(s: State, r: nat, dst: nat, src: Ptr, c: nat, s': State)
    requires HazardInv(s) && StartProtect(s, r, dst, src, c, s')
    ensures HazardInv(s')
  {
    assert ReaderInv(s, r);
    forall q | 0 <= q < |s'.readers| ensures ReaderInv(s', q) { assert ReaderInv(s, q); }
  }

  /** The object a reader stands on is not deleted: it is the segment or protected. */
  lemma StandsOnLiveObject(s: State, r: nat)
    requires Inv(s) && r < |s.readers| && Standing(s.readers[r].pc)
    ensures var x := s.readers[r].pc.x; x < |s.objs| && Counted(s.objs[x].place)
  {
    assert ReaderInv(s, r) && CountInv(s, 0);
  }

  predicate Standing(pc: ReaderPc) { pc.Load? || pc.Show? || pc.Validate? || pc.Retract? }

  /** A successful validation protects: the cell still pointed to the object, so it was not retired, and every reclaimer that
      takes it later will look at the record. */
  lemma ValidatedIsProtected(s: State, r: nat)
    requires Inv(s) && r < |s.readers| && s.readers[r].pc.Validate?
    requires var pc := s.readers[r].pc; pc.x < |s.objs| && pc.c < |s.objs[pc.x].cells| && s.objs[pc.x].cells[pc.c] == pc.p && pc.p.At?
    ensures Protects(s, s.readers[r].pc.dst, s.readers[r].pc.p.n) && s.objs[s.readers[r].pc.p.n].place.Linked?
  {
    StandsOnLiveObject(s, r);
    assert CellInv(s, s.readers[r].pc.x);
  }

  lemma ProtectKeepsOther(s: State, r: nat, s': State, q: nat)
    requires HazardInv(s) && Protect(s, r, s') && q < |s.readers| && q != r && ReaderInv(s, r) && ReaderInv(s, q)
    ensures q < |s'.readers| && ReaderInv(s', q)
  {
  }

  lemma ProtectKeepsOwn(s: State, r: nat, s': State)
    requires Protect(s, r, s') && ReaderInv(s, r)
    requires var pc := s.readers[r].pc; pc.Validate? && pc.p.At? && s'.readers[r].pc.Free? ==> Protects(s, pc.dst, pc.p.n)
    ensures r < |s'.readers| && ReaderInv(s', r)
  {
  }

  lemma ProtectKeepsHazards(s: State, r: nat, s': State)
    requires Inv(s) && Protect(s, r, s')
    ensures HazardInv(s')
  {
    var pc := s.readers[r].pc;
    assert ReaderInv(s, r);
    if pc.Validate? && pc.p.At? && s'.readers[r].pc.Free? { ValidatedIsProtected(s, r); }
    forall q | 0 <= q < |s'.readers| ensures ReaderInv(s', q) {
      assert ReaderInv(s, q);
      if q == r { ProtectKeepsOwn(s, r, s'); } else { ProtectKeepsOther(s, r, s', q); }
    }
  }

  // ---------- Every step keeps the invariant ----------

  lemma WriterKeepsGraph(s: State, s': State)
    requires GraphInv(s) && WriterMoves(s, s')
    ensures GraphInv(s')
  {
    if w: nat, tag: nat, cells: nat :| Alloc(s, w, tag, cells, s') {
      AllocKeepsGraph(s, w, tag, cells, s');
    } else if w: nat, o: nat, c: nat, p :| SetFresh(s, w, o, c, p, s') {
      SetFreshKeepsGraph(s, w, o, c, p, s');
    } else if w: nat, o: nat, c: nat :| Acquire(s, w, o, c, s') {
      AcquireKeepsGraph(s, w, o, c, s');
    } else if w: nat, o: nat, c: nat, p, tag: nat, keep :| Store(s, w, o, c, p, tag, keep, s') {
      StoreKeepsGraph(s, w, o, c, p, tag, keep, s');
    } else if w: nat, n: nat :| Release(s, w, n, s') {
      ReleaseKeepsGraph(s, w, n, s');
    } else {
      var w: nat, n: nat :| Discard(s, w, n, s');
      DiscardKeepsGraph(s, w, n, s');
    }
  }

  lemma StoreLeavesHazards(s: State, w: nat, o: nat, c: nat, p: Ptr, tag: nat, keep: multiset<nat>, s': State)
    requires Store(s, w, o, c, p, tag, keep, s')
    ensures LeavesHazards(s, s')
  {
  }

  lemma WriterLeavesHazards(s: State, s': State)
    requires WriterMoves(s, s')
    ensures LeavesHazards(s, s')
  {
    if w: nat, o: nat, c: nat, p, tag: nat, keep :| Store(s, w, o, c, p, tag, keep, s') {
      StoreLeavesHazards(s, w, o, c, p, tag, keep, s');
    } else if w: nat, tag: nat, cells: nat :| Alloc(s, w, tag, cells, s') {
    } else if w: nat, o: nat, c: nat, p :| SetFresh(s, w, o, c, p, s') {
    } else if w: nat, o: nat, c: nat :| Acquire(s, w, o, c, s') {
    } else if w: nat, n: nat :| Release(s, w, n, s') {
    } else {
      var w: nat, n: nat :| Discard(s, w, n, s');
    }
  }

  lemma WriterKeepsInv(s: State, s': State)
    requires Inv(s) && WriterMoves(s, s')
    ensures Inv(s')
  {
    WriterKeepsGraph(s, s');
    WriterLeavesHazards(s, s');
    WorkKeepsHazards(s, s');
  }

  lemma ReclaimerKeepsInv(s: State, s': State)
    requires Inv(s) && ReclaimerMoves(s, s')
    ensures Inv(s')
  {
    if w: nat :| Append(s, w, s') {
      RelocateKeepsGraph(s, Retired(w), InDomain, s');
      WorkKeepsHazards(s, s');
    } else if w: nat :| TakeList(s, w, s') {
      RelocateKeepsGraph(s, InDomain, Taken(|s.reclaims|), s');
      TakeKeepsHazards(s, w, s');
    } else if k: nat :| Scan(s, k, s') {
      ScanKeepsHazards(s, k, s');
      SameGraph(s, s');
    } else if k: nat, n: nat :| Sweep(s, k, n, s') {
      SweepKeepsGraph(s, k, n, s');
      SweepKeepsHazards(s, k, n, s');
    } else {
      var k: nat :| AppendLeft(s, k, s');
      RelocateKeepsGraph(s, Left(k), InDomain, s');
      WorkKeepsHazards(s, s');
    }
  }

  lemma SameGraph(s: State, s': State)
    requires GraphInv(s) && s'.objs == s.objs && s'.holds == s.holds
    ensures GraphInv(s')
  {
    forall n | 0 <= n < |s.objs| ensures CountInv(s', n) && CellInv(s', n) { assert CountInv(s, n) && CellInv(s, n); }
    forall w | 0 <= w < |s.holds| ensures WorkerInv(s', w) { assert WorkerInv(s, w); }
  }

  lemma ReaderKeepsInv(s: State, s': State)
    requires Inv(s) && ReaderMoves(s, s')
    ensures Inv(s')
  {
    if r: nat :| AcquireRecord(s, r, s') {
      AcquireRecordKeepsHazards(s, r, s');
    } else if r: nat, j: nat :| ClearRecord(s, r, j, s') {
      ClearRecordKeepsHazards(s, r, j, s');
    } else if r: nat, j: nat :| ReleaseRecord(s, r, j, s') {
      ReleaseRecordKeepsHazards(s, r, j, s');
    } else if r: nat, dst: nat, src, c: nat :| StartProtect(s, r, dst, src, c, s') {
      StartKeepsHazards(s, r, dst, src, c, s');
    } else {
      var r: nat :| Protect(s, r, s');
      ProtectKeepsHazards(s, r, s');
    }
    SameGraph(s, s');
  }

  lemma InitIsInv(s: State)
    requires Init(s)
    ensures Inv(s)
  {
    var buckets: nat :| s.objs == FirstObjects(buckets);
    forall n | 0 <= n < |s.objs| ensures CountInv(s, n) {
      SumIsZero(HoldCount(n), s.holds);
      SumAppend(InCount(n), [s.objs[0]], s.objs[1]);
      SumAppend(InCount(n), [], s.objs[0]);
      assert s.objs == [s.objs[0]] + [s.objs[1]] && [s.objs[0]] == [] + [s.objs[0]];
      assert At(n) !in s.objs[1].cells;
      assert multiset([At(1)])[At(n)] == One(At(1), n);
    }
  }

  lemma StepKeepsInv(s: State, s': State)
    requires Inv(s) && Moves(s, s')
    ensures Inv(s')
  {
    if WriterMoves(s, s') {
      WriterKeepsInv(s, s');
    } else if ReclaimerMoves(s, s') {
      ReclaimerKeepsInv(s, s');
    } else {
      ReaderKeepsInv(s, s');
    }
  }

  lemma RunKeepsInv(run: seq<State>, i: nat)
    requires IsMapRun(run) && i < |run|
    ensures Inv(run[i])
  {
    forall s | Init(s) ensures Inv(s) { InitIsInv(s); }
    forall s, s' | Inv(s) && Moves(s, s') ensures Inv(s') { StepKeepsInv(s, s'); }
    InvariantOfRun(Init, Moves, Inv, run);
  }

  // ---------- What holds in every state of every run ----------

  /** No object that a validated hazard pointer protects is deleted. */
  lemma ProtectedIsNotDeleted(run: seq<State>, i: nat, r: nat, j: nat)
    requires IsMapRun(run) && i < |run| && r < |run[i].readers|
    requires j in run[i].readers[r].mine && run[i].readers[r].mine[j].At?
    ensures var n := run[i].readers[r].mine[j].n; n < |run[i].objs| && !run[i].objs[n].place.Deleted?
  {
    RunKeepsInv(run, i);
    assert ReaderInv(run[i], r) && Protects(run[i], j, run[i].readers[r].mine[j].n);
  }

  /** Walking hand over hand, a reader never reads a cell of a deleted object. */
  lemma ReadersTouchOnlyLiveObjects(run: seq<State>, i: nat, r: nat)
    requires IsMapRun(run) && i < |run| && r < |run[i].readers| && Standing(run[i].readers[r].pc)
    ensures var x := run[i].readers[r].pc.x; x < |run[i].objs| && !run[i].objs[x].place.Deleted?
  {
    RunKeepsInv(run, i);
    StandsOnLiveObject(run[i], r);
  }

  /** The reference count of every node is the number of cells of published, not yet deleted objects that point to it, plus the
      references in progress; it is zero exactly from retirement on, and nothing points to the node from then on. */
  lemma RefcountIsInDegree(run: seq<State>, i: nat, n: nat)
    requires IsMapRun(run) && i < |run| && 0 < n < |run[i].objs|
    ensures run[i].objs[n].refcount == InDegree(run[i], n) + Held(run[i], n)
    ensures run[i].objs[n].refcount > 0 <==> run[i].objs[n].place.Fresh? || run[i].objs[n].place.Linked?
    ensures run[i].objs[n].refcount == 0 ==>
      forall o | 0 <= o < |run[i].objs| && Counted(run[i].objs[o].place) :: At(n) !in run[i].objs[o].cells
  {
    RunKeepsInv(run, i);
    assert CountInv(run[i], n);
    CountsAreNaturals(run[i], n);
    forall o | 0 <= o < |run[i].objs| && Counted(run[i].objs[o].place) && run[i].objs[n].refcount == 0
      ensures At(n) !in run[i].objs[o].cells
    {
      NothingPointsTo(run[i], n, o);
    }
  }

  /** `acquire()` and `release()` never find the reference count at zero, and they find the node linked. */
  lemma CountsAreNeverZeroInUse(run: seq<State>, i: nat, w: nat, n: nat)
    requires IsMapRun(run) && i < |run| && n < |run[i].objs|
    requires (w < |run[i].holds| && n in run[i].holds[w])
      || exists o :: 0 <= o < |run[i].objs| && Counted(run[i].objs[o].place) && At(n) in run[i].objs[o].cells
    ensures n > 0 ==> run[i].objs[n].refcount > 0
    ensures n > 0 ==> run[i].objs[n].place.Fresh? || run[i].objs[n].place.Linked?
  {
    var s := run[i];
    RunKeepsInv(run, i);
    assert CountInv(s, n);
    CountsAreNaturals(s, n);
    SumIsZero(HoldCount(n), s.holds);
    if w < |s.holds| && n in s.holds[w] { assert HoldCount(n)(s.holds[w]) > 0; }
    else {
      var o :| 0 <= o < |s.objs| && Counted(s.objs[o].place) && At(n) in s.objs[o].cells;
      if InDegree(s, n) == 0 { NothingPointsTo(s, n, o); }
    }
  }

  /** How far an object is on its way out. */
  function Stage(p: Place): nat {
    match p
    case Root => 0
    case Fresh(_, _) => 0
    case Linked => 1
    case Deleted => 3
    case _ => 2
  }

  /** Objects are never linked again once they are retired, and deleted at most once: no step takes an object back. */
  lemma ObjectsOnlyMoveOn(s: State, s': State, n: nat)
    requires Inv(s) && Moves(s, s') && n < |s.objs|
    ensures n < |s'.objs| && Stage(s'.objs[n].place) >= Stage(s.objs[n].place)
  {
    assert CountInv(s, n);
    if WriterMoves(s, s') {
      WritersOnlyMoveOn(s, s', n);
    } else if ReclaimerMoves(s, s') {
      ReclaimersOnlyMoveOn(s, s', n);
    } else {
      assert s'.objs == s.objs;
    }
  }

  lemma WritersOnlyMoveOn(s: State, s': State, n: nat)
    requires WriterMoves(s, s') && n < |s.objs|
    ensures n < |s'.objs| && Stage(s'.objs[n].place) >= Stage(s.objs[n].place)
  {
  }

  lemma ReclaimersOnlyMoveOn(s: State, s': State, n: nat)
    requires ReclaimerMoves(s, s') && n < |s.objs|
    ensures n < |s'.objs| && Stage(s'.objs[n].place) >= Stage(s.objs[n].place)
  {
  }

  // ---------- What a reader obtains ----------

  /** Reader `r` is inside get_protected on cell `c` of object `x`. */
  predicate InCall(s: State, r: nat, dst: nat, x: nat, c: nat) {
    r < |s.readers| && Standing(s.readers[r].pc) && s.readers[r].pc.dst == dst && s.readers[r].pc.x == x && s.readers[r].pc.c == c
  }

  /** Reader `r` comes back from get_protected with what the cell leads to at this time, and its record shows it. */
  predicate ComesBack(s: State, s': State, r: nat, dst: nat, x: nat, c: nat) {
    && IsCell(s, x, c) && r < |s.readers| && r < |s'.readers| && dst < |s'.records|
    && s'.readers[r] == Reader(s.readers[r].mine[dst := s.objs[x].cells[c]], Free)
    && s'.records[dst].ptr == s.objs[x].cells[c]
  }

  lemma OwnStepInCall(s: State, s': State, r: nat, dst: nat, x: nat, c: nat)
    requires Protect(s, r, s') && ReaderInv(s, r) && InCall(s, r, dst, x, c)
    ensures InCall(s', r, dst, x, c) || ComesBack(s, s', r, dst, x, c)
    ensures s'.readers[r].pc.Free? ==> ComesBack(s, s', r, dst, x, c)
    ensures !s'.readers[r].pc.Free? ==> s'.readers[r].mine == s.readers[r].mine
  {
  }

  lemma OthersLeaveCall(s: State, s': State, r: nat)
    requires r < |s.readers| && Standing(s.readers[r].pc) && ReaderMoves(s, s') && !Protect(s, r, s')
    ensures r < |s'.readers| && s'.readers[r] == s.readers[r]
  {
    if q: nat :| AcquireRecord(s, q, s') {
    } else if q: nat, j: nat :| ClearRecord(s, q, j, s') {
    } else if q: nat, j: nat :| ReleaseRecord(s, q, j, s') {
    } else if q: nat, dst: nat, src, c: nat :| StartProtect(s, q, dst, src, c, s') {
    } else {
      var q: nat :| Protect(s, q, s');
    }
  }

  lemma WorkersLeaveReaders(s: State, s': State)
    requires WriterMoves(s, s') || ReclaimerMoves(s, s')
    ensures s'.readers == s.readers
  {
    if WriterMoves(s, s') { WriterLeavesHazards(s, s'); }
  }

  lemma StepInCall(s: State, s': State, r: nat, dst: nat, x: nat, c: nat)
    requires Inv(s) && Moves(s, s') && InCall(s, r, dst, x, c)
    ensures r < |s'.readers|
    ensures s'.readers[r].pc.Free? ==> ComesBack(s, s', r, dst, x, c)
    ensures !s'.readers[r].pc.Free? ==> InCall(s', r, dst, x, c) && s'.readers[r].mine == s.readers[r].mine
  {
    assert ReaderInv(s, r);
    if Protect(s, r, s') { OwnStepInCall(s, s', r, dst, x, c); }
    else if ReaderMoves(s, s') { OthersLeaveCall(s, s', r); }
    else { WorkersLeaveReaders(s, s'); }
  }

  lemma StartsCall(s: State, s': State, r: nat, dst: nat, src: Ptr, c: nat)
    requires StartProtect(s, r, dst, src, c, s')
    ensures InCall(s', r, dst, if src.At? then s.readers[r].mine[src.n].n else 0, c) && s'.readers[r].mine == s.readers[r].mine[dst := Null]
  {
  }

  /** What a step does to reader `r` inside a call. */
  ghost predicate StaysOrComesBack(s: State, s': State, r: nat) {
    r < |s.readers| && Standing(s.readers[r].pc) ==>
      var pc := s.readers[r].pc;
      && r < |s'.readers|
      && (s'.readers[r].pc.Free? ==> ComesBack(s, s', r, pc.dst, pc.x, pc.c))
      && (!s'.readers[r].pc.Free? ==> InCall(s', r, pc.dst, pc.x, pc.c) && s'.readers[r].mine == s.readers[r].mine)
  }

  lemma StepStaysOrComesBack(s: State, s': State, r: nat)
    requires Inv(s) && Moves(s, s')
    ensures StaysOrComesBack(s, s', r)
  {
    if r < |s.readers| && Standing(s.readers[r].pc) {
      var pc := s.readers[r].pc;
      StepInCall(s, s', r, pc.dst, pc.x, pc.c);
    }
  }

  lemma RunStaysOrComesBack(run: seq<State>, n: nat, r: nat)
    requires IsMapRun(run) && 0 < n < |run|
    ensures StaysOrComesBack(run[n - 1], run[n], r)
  {
    RunKeepsInv(run, n - 1);
    StepStaysOrComesBack(run[n - 1], run[n], r);
  }

  /** The steps from `i + 1` to `n` are inside the call of get_protected that the step from `i` began. */
  ghost predicate DuringCall(run: seq<State>, i: nat, n: nat, r: nat) {
    i < n < |run| && forall j | i < j <= n :: r < |run[j].readers| && Standing(run[j].readers[r].pc)
  }

  lemma {:induction false} CallGoesOn(run: seq<State>, i: nat, n: nat, r: nat, dst: nat, x: nat, c: nat)
    requires DuringCall(run, i, n, r) && InCall(run[i + 1], r, dst, x, c)
    requires forall k | i + 1 < k <= n :: StaysOrComesBack(run[k - 1], run[k], r)
    ensures InCall(run[n], r, dst, x, c) && run[n].readers[r].mine == run[i + 1].readers[r].mine
  {
    if n > i + 1 {
      CallGoesOn(run, i, n - 1, r, dst, x, c);
      assert StaysOrComesBack(run[n - 1], run[n], r);
    }
  }

  /** get_protected on cell `c` of the segment, or of the object that record `src` protects, comes back with what that cell leads to at
      the end of the call; its other records protect what they did. */
  lemma GetProtectedObtainsTheCell(run: seq<State>, i: nat, n: nat, r: nat, dst: nat, src: Ptr, c: nat)
    requires IsMapRun(run) && DuringCall(run, i, n, r) && StartProtect(run[i], r, dst, src, c, run[i + 1])
    requires n + 1 < |run| && r < |run[n + 1].readers| && !Standing(run[n + 1].readers[r].pc)
    ensures var x := if src.At? then run[i].readers[r].mine[src.n].n else 0;
      && IsCell(run[n], x, c) && dst < |run[n + 1].records|
      && run[n + 1].readers[r] == Reader(run[i].readers[r].mine[dst := run[n].objs[x].cells[c]], Free)
      && run[n + 1].records[dst].ptr == run[n].objs[x].cells[c]
  {
    forall k | i < k <= n + 1 ensures StaysOrComesBack(run[k - 1], run[k], r) { RunStaysOrComesBack(run, k, r); }
    StartsCall(run[i], run[i + 1], r, dst, src, c);
    CallGoesOn(run, i, n, r, dst, if src.At? then run[i].readers[r].mine[src.n].n else 0, c);
    EndsCall(run[i].readers[r].mine, run[n], run[n + 1], r, dst, if src.At? then run[i].readers[r].mine[src.n].n else 0, c);
  }

  lemma EndsCall(mine: map<nat, Ptr>, s: State, s': State, r: nat, dst: nat, x: nat, c: nat)
    requires InCall(s, r, dst, x, c) && s.readers[r].mine == mine[dst := Null] && StaysOrComesBack(s, s', r)
    requires r < |s'.readers| && !Standing(s'.readers[r].pc)
    ensures IsCell(s, x, c) && dst < |s'.records|
    ensures s'.readers[r] == Reader(mine[dst := s.objs[x].cells[c]], Free) && s'.records[dst].ptr == s.objs[x].cells[c]
  {
    assert ComesBack(s, s', r, dst, x, c);
    assert s'.readers[r].mine == mine[dst := s.objs[x].cells[c]];
  }

  // ---------- Readers that nobody interferes with ----------

  ghost predicate ReaderActs(s: State, s': State, r: nat) {
    || AcquireRecord(s, r, s')
    || (exists dst: nat, src, c: nat :: StartProtect(s, r, dst, src, c, s'))
    || Protect(s, r, s')
    || (exists j: nat :: ClearRecord(s, r, j, s') || ReleaseRecord(s, r, j, s'))
  }

  /** In `run` nobody but reader `r` takes a step. */
  ghost predicate ReadsAlone(run: seq<State>, r: nat) {
    |run| > 0 && forall n | 0 < n < |run| :: ReaderActs(run[n - 1], run[n], r)
  }

  lemma ReadsOn(run: seq<State>, rest: seq<State>, r: nat)
    requires ReadsAlone(run, r) && ReadsAlone(rest, r) && run[|run| - 1] == rest[0]
    ensures ReadsAlone(run + rest[1..], r) && (run + rest[1..])[|run + rest[1..]| - 1] == rest[|rest| - 1]
  {
    Joined((s, s') => ReaderActs(s, s', r), run, rest);
  }

  lemma ReadingKeepsInv(s: State, s': State, r: nat)
    requires Inv(s) && ReaderActs(s, s', r)
    ensures Inv(s') && Moves(s, s')
  {
    if dst: nat, src, c: nat :| StartProtect(s, r, dst, src, c, s') {
    } else if j: nat :| ClearRecord(s, r, j, s') || ReleaseRecord(s, r, j, s') {
    }
    assert ReaderMoves(s, s');
    ReaderKeepsInv(s, s');
  }

  lemma {:induction false} ReadingAloneKeepsInv(run: seq<State>, r: nat)
    requires ReadsAlone(run, r) && Inv(run[0])
    ensures forall n | 0 < n < |run| :: Moves(run[n - 1], run[n])
    ensures Inv(run[|run| - 1])
  {
    if |run| > 1 {
      var init := run[..|run| - 1];
      ReadingAloneKeepsInv(init, r);
      var n := |run| - 1;
      assert ReaderActs(run[n - 1], run[n], r);
      ReadingKeepsInv(run[n - 1], run[n], r);
      forall k | 0 < k < |run| ensures Moves(run[k - 1], run[k]) {
        if k < n { assert Moves(init[k - 1], init[k]); }
      }
    }
  }

  /** A get_protected that nobody interferes with comes back with what the cell leads to. */
  lemma GetProtectedAlone(s: State, r: nat, dst: nat, src: Ptr, c: nat, x: nat) returns (run: seq<State>)
    requires Inv(s) && r < |s.readers| && s.readers[r].pc.Free? && dst in s.readers[r].mine && IsCell(s, x, c)
    requires if src.At? then src.n != dst && src.n in s.readers[r].mine && s.readers[r].mine[src.n] == At(x) else x == 0
    ensures ReadsAlone(run, r) && run[0] == s && Inv(run[|run| - 1])
    ensures var last := run[|run| - 1];
      && last.objs == s.objs && |last.records| == |s.records|
      && last.readers == s.readers[r := Reader(s.readers[r].mine[dst := s.objs[x].cells[c]], Free)]
  {
    var mine, p := s.readers[r].mine, s.objs[x].cells[c];
    assert ReaderInv(s, r);
    var s1 := SetReader(s, r, Reader(mine[dst := Null], Load(dst, src, x, c)));
    assert StartProtect(s, r, dst, src, c, s1);
    var s2 := SetReader(s1, r, s1.readers[r].(pc := Show(dst, src, x, c, p)));
    var s3 := SetRecord(SetReader(s2, r, s2.readers[r].(pc := Validate(dst, src, x, c, p))), dst, s2.records[dst].(ptr := p));
    var s4 := SetReader(s3, r, Reader(s3.readers[r].mine[dst := p], Free));
    assert Protect(s1, r, s2) && Protect(s2, r, s3) && Protect(s3, r, s4);
    assert s4.readers[r].mine == mine[dst := p];
    run := [s, s1, s2, s3, s4];
    ReadingAloneKeepsInv(run, r);
  }

  /** Some record is not in use. */
  predicate SomeInactive(records: seq<Record>, n: nat)
    requires n <= |records|
  {
    exists j :: 0 <= j < n && !records[j].active
  }

  lemma {:induction false} SeekAlone(s: State, r: nat, rest: nat) returns (run: seq<State>, j: nat)
    requires Inv(s) && r < |s.readers| && s.readers[r].pc == Seek(rest) && rest <= |s.records|
    ensures ReadsAlone(run, r) && run[0] == s && Inv(run[|run| - 1])
    ensures var last, mine := run[|run| - 1], s.readers[r].mine;
      && last.objs == s.objs && last.readers == s.readers[r := Reader(mine[j := Null], Free)]
      && j !in mine && j < |last.records| && |last.records| == (if SomeInactive(s.records, rest) then |s.records| else |s.records| + 1)
    decreases rest
  {
    var me := s.readers[r];
    assert ReaderInv(s, r);
    if rest == 0 {
      j := |s.records|;
      var s1 := SetReader(s, r, Reader(me.mine[j := Null], Free)).(records := s.records + [Record(true, Null)]);
      assert AcquireRecord(s, r, s1);
      run := [s, s1];
    } else if s.records[rest - 1].active {
      var s1 := SetReader(s, r, me.(pc := Seek(rest - 1)));
      assert AcquireRecord(s, r, s1);
      ReadingKeepsInv(s, s1, r);
      var more;
      more, j := SeekAlone(s1, r, rest - 1);
      run := [s] + more;
    } else {
      j := rest - 1;
      var s1 := SetReader(s, r, me.(pc := Claim(j)));
      var s2 := SetRecord(SetReader(s1, r, Reader(me.mine[j := Null], Free)), j, s1.records[j].(active := true));
      assert AcquireRecord(s, r, s1) && AcquireRecord(s1, r, s2);
      run := [s, s1, s2];
    }
    ReadingAloneKeepsInv(run, r);
  }

  /** Acquiring a record, when nobody interferes, takes one that is not in use; a new one is made only if there is none. */
  lemma AcquireAlone(s: State, r: nat) returns (run: seq<State>, j: nat)
    requires Inv(s) && r < |s.readers| && s.readers[r].pc.Free?
    ensures ReadsAlone(run, r) && run[0] == s && Inv(run[|run| - 1])
    ensures var last, mine := run[|run| - 1], s.readers[r].mine;
      && last.objs == s.objs && last.readers == s.readers[r := Reader(mine[j := Null], Free)] && j !in mine && j < |last.records|
      && |last.records| == (if SomeInactive(s.records, |s.records|) then |s.records| else |s.records| + 1)
  {
    var s1 := SetReader(s, r, s.readers[r].(pc := Seek(|s.records|)));
    assert AcquireRecord(s, r, s1);
    ReadingKeepsInv(s, s1, r);
    var rest;
    rest, j := SeekAlone(s1, r, |s.records|);
    run := [s] + rest;
    ReadingAloneKeepsInv(run, r);
  }

  /** A record that is given back no longer protects anything, and can be acquired by others. */
  lemma GiveBackAlone(s: State, r: nat, j: nat) returns (run: seq<State>)
    requires Inv(s) && r < |s.readers| && s.readers[r].pc.Free? && j in s.readers[r].mine
    ensures ReadsAlone(run, r) && run[0] == s && Inv(run[|run| - 1])
    ensures var last := run[|run| - 1];
      && last.objs == s.objs && last.readers == s.readers[r := Reader(s.readers[r].mine - {j}, Free)]
      && j < |s.records| && last.records == s.records[j := Record(false, Null)]
  {
    var me := s.readers[r];
    assert ReaderInv(s, r);
    var s1 := SetRecord(SetReader(s, r, me.(mine := me.mine[j := Null])), j, s.records[j].(ptr := Null));
    var s2 := SetRecord(SetReader(s1, r, s1.readers[r].(mine := s1.readers[r].mine - {j})), j, s1.records[j].(active := false));
    assert ClearRecord(s, r, j, s1) && ReleaseRecord(s1, r, j, s2);
    assert me.mine[j := Null] - {j} == me.mine - {j};
    run := [s, s1, s2];
    ReadingAloneKeepsInv(run, r);
  }

  /** From every state a reader can come to protect, hand over hand, the bucket array and a node that a bucket leads to. */
  lemma ReachesNode(s: State, r: nat, a: nat, c: nat, n: nat) returns (run: seq<State>, i: nat, j: nat)
    requires Inv(s) && r < |s.readers| && s.readers[r].pc.Free?
    requires |s.objs[0].cells| > 0 && s.objs[0].cells[0] == At(a) && IsCell(s, a, c) && s.objs[a].cells[c] == At(n)
    ensures ReadsAlone(run, r) && run[0] == s && Inv(run[|run| - 1])
    ensures var last := run[|run| - 1];
      && last.objs == s.objs && i != j
      && last.readers == s.readers[r := Reader(s.readers[r].mine[i := At(a)][j := At(n)], Free)]
  {
    var mine := s.readers[r].mine;
    run, i := AcquireAlone(s, r);
    var s1 := run[|run| - 1];
    var next;
    next, j := AcquireAlone(s1, r);
    ReadsOn(run, next, r);
    run := run + next[1..];
    var s2 := run[|run| - 1];
    next := GetProtectedAlone(s2, r, i, Null, 0, 0);
    ReadsOn(run, next, r);
    run := run + next[1..];
    var s3 := run[|run| - 1];
    next := GetProtectedAlone(s3, r, j, At(i), c, a);
    ReadsOn(run, next, r);
    run := run + next[1..];
    var one: map<nat, Ptr> := mine[i := At(a)];
    assert run[|run| - 1].readers[r].mine == one[j := At(n)];
  }

  /** The segment with one bucket, which leads to a node, and a reader that has not begun. */
  function OneNode(): State {
    State([Obj([At(1)], 0, Root), Obj([At(2)], 1, Linked), Obj([Null], 1, Linked)], [multiset{}], [], [], [Reader(map[], Free)])
  }

  /** The node has been allocated and not yet been published. */
  function OneNewNode(): State {
    Allocated(NoNode(), 0, 2, 1)
  }

  lemma OneNodeIsStored()
    ensures Store(OneNewNode(), 0, 1, 0, At(2), 2, multiset{}, OneNode())
  {
    var s := OneNewNode();
    forall n: nat ensures Sum(FreshCount(0, 2, n), s.objs) == 0 { SumIsZero(FreshCount(0, 2, n), s.objs); }
    assert s.holds[0] == multiset{2};
    var s' := Stored(s, 0, 1, 0, At(2), 2, multiset{});
    assert s'.objs[0] == OneNode().objs[0] && s'.objs[1] == OneNode().objs[1] && s'.objs[2] == OneNode().objs[2];
    assert s'.objs == OneNode().objs;
  }

  function NoNode(): State { State(FirstObjects(1), [multiset{}], [], [], [Reader(map[], Free)]) }

  lemma NoNodeAtFirst()
    ensures Init(NoNode())
  {
  }

  lemma AllocMoves(s: State, w: nat, tag: nat, cells: nat, s': State)
    requires Alloc(s, w, tag, cells, s')
    ensures Moves(s, s')
  {
  }

  lemma StoringMoves(s: State, w: nat, o: nat, c: nat, p: Ptr, tag: nat, keep: multiset<nat>, s': State)
    requires Store(s, w, o, c, p, tag, keep, s')
    ensures Moves(s, s')
  {
  }

  lemma OneNodeIsReached() returns (run: seq<State>)
    ensures IsMapRun(run) && run[|run| - 1] == OneNode()
  {
    NoNodeAtFirst();
    AllocMoves(NoNode(), 0, 2, 1, OneNewNode());
    OneNodeIsStored();
    StoringMoves(OneNewNode(), 0, 1, 0, At(2), 2, multiset{}, OneNode());
    run := ThreeStates(NoNode(), OneNewNode(), OneNode());
  }

  lemma ThreeStates(a: State, b: State, c: State) returns (run: seq<State>)
    requires Init(a) && Moves(a, b) && Moves(b, c)
    ensures run == [a, b, c] && IsMapRun(run)
  {
    run := [a, b, c];
  }

  lemma GoesOnInRun(run: seq<State>, rest: seq<State>)
    requires IsMapRun(run) && |rest| > 0 && run[|run| - 1] == rest[0]
    requires forall n | 0 < n < |rest| :: Moves(rest[n - 1], rest[n])
    ensures IsMapRun(run + rest[1..]) && (run + rest[1..])[|run + rest[1..]| - 1] == rest[|rest| - 1]
  {
    Joined(Moves, run, rest);
  }

  /** A run in which a reader protects the bucket array and then, through it, a node. */
  lemma ReaderProtectsNode() returns (run: seq<State>, i: nat, j: nat)
    ensures IsMapRun(run)
    ensures var last := run[|run| - 1];
      && |last.readers| == 1 && last.readers[0].pc.Free? && i != j
      && i in last.readers[0].mine && last.readers[0].mine[i] == At(1)
      && j in last.readers[0].mine && last.readers[0].mine[j] == At(2)
  {
    var first := OneNodeIsReached();
    RunKeepsInv(first, |first| - 1);
    var rest;
    rest, i, j := ReachesNode(OneNode(), 0, 1, 0, 2);
    ReadingAloneKeepsInv(rest, 0);
    GoesOnInRun(first, rest);
    run := first + rest[1..];
  }

  // ---------- What a reclaimer deletes ----------

  predicate Shown(records: seq<Record>, n: nat) { exists j :: 0 <= j < |records| && records[j].ptr == At(n) }

  ghost predicate ReclaimerActs(s: State, s': State, w: nat, k: nat) {
    Append(s, w, s') || TakeList(s, w, s') || Scan(s, k, s') || (exists n: nat :: Sweep(s, k, n, s')) || AppendLeft(s, k, s')
  }

  /** In `run` nobody takes a step but worker `w` with its reclaim number `k`. */
  ghost predicate ReclaimsAlone(run: seq<State>, w: nat, k: nat) {
    |run| > 0 && forall n | 0 < n < |run| :: ReclaimerActs(run[n - 1], run[n], w, k)
  }

  lemma ReclaimsOn(run: seq<State>, rest: seq<State>, w: nat, k: nat)
    requires ReclaimsAlone(run, w, k) && ReclaimsAlone(rest, w, k) && run[|run| - 1] == rest[0]
    ensures ReclaimsAlone(run + rest[1..], w, k) && (run + rest[1..])[|run + rest[1..]| - 1] == rest[|rest| - 1]
  {
    Joined((s, s') => ReclaimerActs(s, s', w, k), run, rest);
  }

  lemma {:induction false} ReclaimingKeepsInv(run: seq<State>, w: nat, k: nat)
    requires ReclaimsAlone(run, w, k) && Inv(run[0])
    ensures Inv(run[|run| - 1])
  {
    if |run| > 1 {
      var n := |run| - 1;
      ReclaimingKeepsInv(run[..n], w, k);
      assert ReclaimerActs(run[n - 1], run[n], w, k);
      ReclaimerKeepsInv(run[n - 1], run[n]);
    }
  }

  lemma {:induction false} ScanAlone(s: State, w: nat, k: nat, rest: nat) returns (run: seq<State>, seen: set<Ptr>)
    requires k < |s.reclaims| && s.reclaims[k].phase == Scanning(rest) && rest <= |s.records|
    ensures ReclaimsAlone(run, w, k) && run[0] == s
    ensures run[|run| - 1] == s.(reclaims := s.reclaims[k := s.reclaims[k].(phase := Sweeping, seen := seen)])
    ensures forall q :: q in seen <==> q in s.reclaims[k].seen || exists j :: 0 <= j < rest && s.records[j].ptr == q
    decreases rest
  {
    var r := s.reclaims[k];
    if rest == 0 {
      seen := r.seen;
      var s1 := s.(reclaims := s.reclaims[k := r.(phase := Sweeping)]);
      assert Scan(s, k, s1);
      run := [s, s1];
    } else {
      var s1 := s.(reclaims := s.reclaims[k := r.(phase := Scanning(rest - 1), seen := r.seen + {s.records[rest - 1].ptr})]);
      assert Scan(s, k, s1);
      var more;
      more, seen := ScanAlone(s1, w, k, rest - 1);
      run := [s] + more;
    }
  }

  /** Where the sweep of reclaim `k` leaves object `n`. */
  predicate IsSwept(s: State, s': State, k: nat, n: nat)
    requires k < |s.reclaims| && n < |s.objs| == |s'.objs|
  {
    s'.objs[n].place == if s.objs[n].place != Taken(k) then s.objs[n].place
                        else if At(n) in s.reclaims[k].seen then Left(k) else Deleted
  }

  lemma {:induction false} SweepAlone(s: State, w: nat, k: nat, i: nat) returns (run: seq<State>)
    requires k < |s.reclaims| && s.reclaims[k].phase.Sweeping? && s.reclaims[k].worker < |s.holds| && i <= |s.objs|
    ensures ReclaimsAlone(run, w, k) && run[0] == s
    ensures var last := run[|run| - 1];
      && |last.objs| == |s.objs| && last.reclaims == s.reclaims && |last.holds| == |s.holds|
      && (forall n | 0 <= n < i :: IsSwept(s, last, k, n)) && (forall n | i <= n < |s.objs| :: last.objs[n] == s.objs[n])
  {
    run := [s];
    if i > 0 {
      run := SweepAlone(s, w, k, i - 1);
      var last, n := run[|run| - 1], i - 1;
      if last.objs[n].place == Taken(k) {
        var v := s.reclaims[k].worker;
        var next := if At(n) in last.reclaims[k].seen then SetObj(last, n, last.objs[n].(place := Left(k)))
          else SetObj(last, n, last.objs[n].(place := Deleted)).(holds := last.holds[v := last.holds[v] + Targets(last.objs[n].cells)]);
        assert Sweep(last, k, n, next);
        run := run + [next];
        forall m | 0 <= m < n ensures IsSwept(s, next, k, m) { assert IsSwept(s, last, k, m); }
      }
    }
  }

  /** What a worker that hands over its private list and then reclaims leaves of object `n`. */
  predicate IsReclaimed(s: State, s': State, w: nat, n: nat)
    requires n < |s.objs| == |s'.objs|
  {
    s'.objs[n].place == if s.objs[n].place != Retired(w) && s.objs[n].place != InDomain then s.objs[n].place
                        else if Shown(s.records, n) then InDomain else Deleted
  }

  /** Of the objects on its private list and in the domain, a worker that nobody interferes with deletes those that no record shows, and
      keeps the others for later; it deletes nothing else. */
  lemma ReclaimAlone(s: State, w: nat) returns (run: seq<State>)
    requires Inv(s) && w < |s.holds|
    ensures ReclaimsAlone(run, w, |s.reclaims|) && run[0] == s && Inv(run[|run| - 1])
    ensures var last := run[|run| - 1]; |last.objs| == |s.objs| && forall n | 0 <= n < |s.objs| :: IsReclaimed(s, last, w, n)
  {
    var k := |s.reclaims|;
    var s1 := s.(objs := Relocate(s.objs, Retired(w), InDomain));
    var s2 := s1.(objs := Relocate(s1.objs, InDomain, Taken(k)), reclaims := s1.reclaims + [Reclaim(w, TookList, {})]);
    var s3 := s2.(reclaims := s2.reclaims[k := Reclaim(w, Scanning(|s.records|), {})]);
    assert Append(s, w, s1) && TakeList(s1, w, s2) && Scan(s2, k, s3);
    var scan, seen := ScanAlone(s3, w, k, |s.records|);
    run := [s, s1, s2] + scan;
    var s4 := run[|run| - 1];
    var sweep := SweepAlone(s4, w, k, |s.objs|);
    ReclaimsOn(run, sweep, w, k);
    run := run + sweep[1..];
    var s5 := run[|run| - 1];
    var s6 := s5.(objs := Relocate(s5.objs, Left(k), InDomain));
    assert AppendLeft(s5, k, s6);
    run := run + [s6];
    ReclaimingKeepsInv(run, w, k);
    forall n | 0 <= n < |s.objs| ensures IsReclaimed(s, s6, w, n) {
      assert IsSwept(s4, s5, k, n);
      assert At(n) in seen <==> Shown(s.records, n);
    }
  }

  /** Reclaim `k` is looking at a record that shows object `n`. */
  predicate LooksAt(s: State, k: nat, n: nat) { k < |s.reclaims| && s.reclaims[k].phase.Scanning? && Shown(s.records, n) }

  predicate HasSeen(s: State, k: nat, n: nat) { k < |s.reclaims| && At(n) in s.reclaims[k].seen }

  lemma SeesByLooking(s: State, s': State, k: nat, n: nat)
    requires Moves(s, s') && HasSeen(s', k, n)
    ensures HasSeen(s, k, n) || LooksAt(s, k, n)
  {
    if WriterMoves(s, s') { WriterLeavesHazards(s, s'); }
  }

  /** A sweep that leaves an object does so because a record showed it while the reclaimer scanned the records. */
  lemma LeftMeansShown(run: seq<State>, i: nat, k: nat, n: nat) returns (j: nat)
    requires IsMapRun(run) && i + 1 < |run| && Sweep(run[i], k, n, run[i + 1]) && !run[i + 1].objs[n].place.Deleted?
    ensures j < i && LooksAt(run[j], k, n)
  {
    var holds := (m: nat) => m < |run| && HasSeen(run[m], k, n);
    var event := (m: nat) => 0 < m < |run| && LooksAt(run[m - 1], k, n);
    forall m: nat | m <= i ensures HoldsFrom(holds, event, m) {
      if holds(m) && m > 0 {
        assert Moves(run[m - 1], run[m]);
        SeesByLooking(run[m - 1], run[m], k, n);
      }
    }
    var first := Since(holds, event, i);
    j := first - 1;
  }
}
