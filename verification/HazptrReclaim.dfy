/** Retiring and reclaiming by hazard pointer, of src/concurrent/hazptr.h and hazptr.hpp, as one thread runs it: the thread's
    private list, the manager's retired list with its count, and the scan that deletes what no record protects. */
module HazptrReclaim {
  import opened Links

  /** `deletes` counts how often the object has been deleted. */
  datatype Obj = Obj(next: Ptr, deletes: nat)

  datatype Record = Record(active: bool, realptr: Ptr)

  const SCAN_MULT: nat := 2
  const SCAN_THRESHOLD: nat := 5

  // ---------- Lists ----------

  /** The objects `s` are the list that `p` leads to. */
  ghost predicate IsList(objs: seq<Obj>, p: Ptr, s: seq<nat>) {
    p == From(s, 0) && forall i | 0 <= i < |s| :: LinkAt(objs, s, i)
  }

  ghost predicate LinkAt(objs: seq<Obj>, s: seq<nat>, i: nat)
    requires i < |s|
  {
    s[i] < |objs| && objs[s[i]].next == From(s, i + 1)
  }

  ghost predicate SameNext(objs: seq<Obj>, objs': seq<Obj>, s: seq<nat>) {
    |objs| <= |objs'| && forall i | 0 <= i < |s| && s[i] < |objs| :: objs'[s[i]].next == objs[s[i]].next
  }

  lemma ListKept(objs: seq<Obj>, objs': seq<Obj>, p: Ptr, s: seq<nat>)
    requires IsList(objs, p, s) && SameNext(objs, objs', s)
    ensures IsList(objs', p, s)
  {
    forall i | 0 <= i < |s| ensures LinkAt(objs', s, i) { assert LinkAt(objs, s, i); }
  }

  /** The list behind its first object. */
  lemma ListRest(objs: seq<Obj>, p: Ptr, s: seq<nat>)
    requires IsList(objs, p, s) && s != []
    ensures s[0] < |objs| && IsList(objs, objs[s[0]].next, s[1..])
  {
    assert LinkAt(objs, s, 0);
    forall i | 0 <= i < |s| - 1 ensures LinkAt(objs, s[1..], i) { assert LinkAt(objs, s, i + 1); }
  }

  /** DoubleLinkedList */
  datatype Ends = Ends(head: Ptr, tail: Ptr, count: nat)

  ghost predicate AreEnds(objs: seq<Obj>, e: Ends, s: seq<nat>) {
    IsList(objs, e.head, s) && e.tail == (if s == [] then Null else At(s[|s| - 1])) && e.count == |s|
  }

  /** DoubleLinkedList::push */
  function PushEnds(objs: seq<Obj>, e: Ends, n: nat): (seq<Obj>, Ends)
    requires n < |objs| && (e.tail.At? ==> e.tail.n < |objs|)
  {
    var objs1 := objs[n := objs[n].(next := Null)];
    if e.tail.At? then
      (objs1[e.tail.n := objs1[e.tail.n].(next := At(n))], Ends(e.head, At(n), e.count + 1))
    else
      (objs1, Ends(At(n), At(n), e.count + 1))
  }

  lemma PushAppends(objs: seq<Obj>, e: Ends, s: seq<nat>, n: nat)
    requires AreEnds(objs, e, s) && Distinct(s) && n < |objs| && n !in s
    ensures e.tail.At? ==> e.tail.n < |objs|
    ensures var r := PushEnds(objs, e, n); AreEnds(r.0, r.1, s + [n]) && Distinct(s + [n])
  {
    if s != [] { assert LinkAt(objs, s, |s| - 1); }
    var r, t := PushEnds(objs, e, n), s + [n];
    forall i | 0 <= i < |t| ensures LinkAt(r.0, t, i) {
      if i < |s| {
        assert LinkAt(objs, s, i);
        if i < |s| - 1 { assert Differ(s, i, |s| - 1); }
      }
    }
    forall i, j | 0 <= i < j < |t| ensures Differ(t, i, j) { if j < |s| { assert Differ(s, i, j); } }
  }

  /** What a push changes: the next pointer of the pushed object and of the one before it, and nothing else. */
  lemma PushChanges(objs: seq<Obj>, e: Ends, n: nat)
    requires n < |objs| && (e.tail.At? ==> e.tail.n < |objs|)
    ensures var r := PushEnds(objs, e, n);
      && |r.0| == |objs|
      && (forall m | 0 <= m < |objs| :: r.0[m].deletes == objs[m].deletes)
      && (forall m | 0 <= m < |objs| && m != n && e.tail != At(m) :: r.0[m] == objs[m])
  {
  }

  // ---------- What a scan keeps ----------

  ghost predicate IsProtected(records: seq<Record>, n: nat) { exists i :: 0 <= i < |records| && records[i].realptr == At(n) }

  /** How often a scan of `s` deletes `n`. */
  ghost function Freed(records: seq<Record>, s: seq<nat>, n: nat): nat { if n in s && !IsProtected(records, n) then 1 else 0 }

  /** The objects that some record protects, in order. */
  ghost function Kept(records: seq<Record>, s: seq<nat>): seq<nat> {
    if s == [] then []
    else Kept(records, s[..|s| - 1]) + (if IsProtected(records, s[|s| - 1]) then [s[|s| - 1]] else [])
  }

  lemma {:induction false} KeptIs(records: seq<Record>, s: seq<nat>)
    ensures forall n | n in Kept(records, s) :: n in s && IsProtected(records, n)
    ensures forall n | n in s && IsProtected(records, n) :: n in Kept(records, s)
    ensures Distinct(s) ==> Distinct(Kept(records, s))
    ensures |Kept(records, s)| <= |s|
  {
    if s != [] {
      var init, last := s[..|s| - 1], s[|s| - 1];
      KeptIs(records, init);
      assert s == init + [last];
      if Distinct(s) {
        forall i, j | 0 <= i < j < |init| ensures Differ(init, i, j) { assert Differ(s, i, j); }
        forall i | 0 <= i < |init| ensures init[i] != last { assert Differ(s, i, |s| - 1); }
        var k := Kept(records, init);
        assert last !in k;
        forall i, j | 0 <= i < j < |Kept(records, s)| ensures Differ(Kept(records, s), i, j) {
          if j < |k| { assert Differ(k, i, j); } else { assert k[i] in k; }
        }
      }
    }
  }

  /** Each record keeps at most one object: no more objects are kept than there are records. */
  lemma {:induction false} AtMostOnePerRecord(records: seq<Record>, s: seq<nat>)
    requires Distinct(s) && forall n | n in s :: IsProtected(records, n)
    ensures |s| <= |records|
  {
    assert s != [] ==> s[0] in s;
    if s != [] && records != [] {
      var last := records[|records| - 1].realptr;
      var rest := records[..|records| - 1];
      if last.At? && last.n in s {
        var k :| 0 <= k < |s| && s[k] == last.n;
        var t := s[..k] + s[k + 1..];
        WithoutOne(s, k);
        forall n | n in t ensures IsProtected(rest, n) { OtherProtects(records, n); }
        AtMostOnePerRecord(rest, t);
      } else {
        forall n | n in s ensures IsProtected(rest, n) { OtherProtects(records, n); }
        AtMostOnePerRecord(rest, s);
      }
    }
  }

  lemma WithoutOne(s: seq<nat>, k: nat)
    requires Distinct(s) && k < |s|
    ensures Distinct(s[..k] + s[k + 1..]) && forall n | n in s[..k] + s[k + 1..] :: n in s && n != s[k]
  {
    var t := s[..k] + s[k + 1..];
    forall i | 0 <= i < |t| ensures t[i] == s[if i < k then i else i + 1] && t[i] != s[k] {
      if i < k { assert Differ(s, i, k); } else { assert Differ(s, k, i + 1); }
    }
    forall i, j | 0 <= i < j < |t| ensures Differ(t, i, j) {
      assert Differ(s, if i < k then i else i + 1, if j < k then j else j + 1);
    }
  }

  lemma OtherProtects(records: seq<Record>, n: nat)
    requires records != [] && IsProtected(records, n) && records[|records| - 1].realptr != At(n)
    ensures IsProtected(records[..|records| - 1], n)
  {
    var i :| 0 <= i < |records| && records[i].realptr == At(n);
    assert records[..|records| - 1][i] == records[i];
  }

  lemma ListRestKept(objs: seq<Obj>, objs': seq<Obj>, e: Ends, left: seq<nat>, n: nat, rest: seq<nat>)
    requires AreEnds(objs, e, left) && n < |objs| && (e.tail.At? ==> e.tail.n < |objs|)
    requires objs' == PushEnds(objs, e, n).0 && n !in rest && forall m | m in left :: m !in rest
    ensures SameNext(objs, objs', rest)
  {
    PushChanges(objs, e, n);
    forall i | 0 <= i < |rest| && rest[i] < |objs| ensures objs'[rest[i]].next == objs[rest[i]].next { assert rest[i] in rest; }
  }

  // ---------- The scan ----------

  /** The scan of the list `s` has come to index `i`: the protected objects so far are on the list `left`, the others deleted. */
  ghost predicate Scanned(objs0: seq<Obj>, objs: seq<Obj>, records: seq<Record>, s: seq<nat>, i: nat, p: Ptr, left: Ends) {
    && i <= |s| && |objs| == |objs0|
    && IsList(objs, p, s[i..])
    && AreEnds(objs, left, Kept(records, s[..i]))
    && (forall n | 0 <= n < |objs| :: objs[n].deletes == objs0[n].deletes + Freed(records, s[..i], n))
    && (forall n | 0 <= n < |objs| && n !in s :: objs[n] == objs0[n])
  }

  lemma TakeNext(s: seq<nat>, i: nat)
    requires Distinct(s) && i < |s|
    ensures s[..i + 1] == s[..i] + [s[i]] && s[i..][0] == s[i] && s[i..][1..] == s[i + 1..]
    ensures s[i] !in s[..i] && s[i] !in s[i + 1..]
    ensures Distinct(s[..i]) && forall n | n in s[..i] :: n !in s[i + 1..]
  {
    forall j | 0 <= j < i ensures s[j] != s[i] { assert Differ(s, j, i); }
    forall j | i < j < |s| ensures s[j] != s[i] { assert Differ(s, i, j); }
    forall a, b | 0 <= a < b < i ensures Differ(s[..i], a, b) { assert Differ(s, a, b); }
    forall a, b | 0 <= a < i && i < b < |s| ensures s[a] != s[b] { assert Differ(s, a, b); }
  }

  lemma KeepOne(objs0: seq<Obj>, objs: seq<Obj>, records: seq<Record>, s: seq<nat>, i: nat, p: Ptr, left: Ends)
    requires Scanned(objs0, objs, records, s, i, p, left) && Distinct(s) && i < |s| && IsProtected(records, s[i])
    ensures p == At(s[i]) && s[i] < |objs| && (left.tail.At? ==> left.tail.n < |objs|)
    ensures var r := PushEnds(objs, left, s[i]); Scanned(objs0, r.0, records, s, i + 1, objs[s[i]].next, r.1)
  {
    TakeNext(s, i);
    ListRest(objs, p, s[i..]);
    var kept := Kept(records, s[..i]);
    KeptIs(records, s[..i]);
    PushAppends(objs, left, kept, s[i]);
    PushChanges(objs, left, s[i]);
    var r := PushEnds(objs, left, s[i]);
    ListRestKept(objs, r.0, left, kept, s[i], s[i + 1..]);
    ListKept(objs, r.0, objs[s[i]].next, s[i + 1..]);
    assert Kept(records, s[..i + 1]) == kept + [s[i]];
    assert s[i] in s;
    if left.tail.At? { assert left.tail.n in kept; }
  }

  lemma DeleteOne(objs0: seq<Obj>, objs: seq<Obj>, records: seq<Record>, s: seq<nat>, i: nat, p: Ptr, left: Ends)
    requires Scanned(objs0, objs, records, s, i, p, left) && Distinct(s) && i < |s| && !IsProtected(records, s[i])
    ensures p == At(s[i]) && s[i] < |objs|
    ensures var objs' := objs[s[i] := objs[s[i]].(deletes := objs[s[i]].deletes + 1)];
      Scanned(objs0, objs', records, s, i + 1, objs[s[i]].next, left)
  {
    TakeNext(s, i);
    ListRest(objs, p, s[i..]);
    var objs' := objs[s[i] := objs[s[i]].(deletes := objs[s[i]].deletes + 1)];
    ListKept(objs, objs', objs[s[i]].next, s[i + 1..]);
    ListKept(objs, objs', left.head, Kept(records, s[..i]));
    assert Kept(records, s[..i + 1]) == Kept(records, s[..i]);
    assert s[i] in s;
  }

  // ---------- The manager ----------

  class Manager {
    var objs: seq<Obj>
    var records: seq<Record>       // _hazptr_list
    var hazptrCount: nat           // _hazptr_count
    var retiredList: Ptr           // _retired_list
    var retiredCount: nat          // _retired_count
    var privList: Ends             // priv_list of the thread

    ghost var retired: seq<nat>    // the objects on the retired list
    ghost var priv: seq<nat>       // the objects on the private list

    /** Everything that has been retired and not deleted. */
    ghost function Pending(): seq<nat>
      reads this
    {
      priv + retired
    }

    ghost predicate Valid()
      reads this
    {
      && hazptrCount == |records| && retiredCount == |retired|
      && IsList(objs, retiredList, retired) && AreEnds(objs, privList, priv)
      && Distinct(priv) && Distinct(retired) && (forall n | n in priv :: n !in retired)
      && (forall n | n in priv || n in retired :: n < |objs| && objs[n].deletes == 0)
    }

    constructor ()
      ensures Valid() && Pending() == [] && objs == [] && records == []
    {
      objs, records, hazptrCount, retiredList, retiredCount := [], [], 0, Null, 0;
      privList := Ends(Null, Null, 0);
      retired, priv := [], [];
    }

    method NewObject() returns (n: nat)
      requires Valid()
      modifies this`objs
      ensures Valid() && n == |old(objs)| && objs == old(objs) + [Obj(Null, 0)]
    {
      n := |objs|;
      objs := objs + [Obj(Null, 0)];
      ListKept(old(objs), objs, retiredList, retired);
      ListKept(old(objs), objs, privList.head, priv);
    }

    /** acquire_record: the first record that nobody uses, or a new one. */
    method AcquireRecord() returns (r: nat)
      requires Valid()
      modifies this`records, this`hazptrCount
      ensures Valid() && |old(records)| <= |records| <= |old(records)| + 1
      ensures r < |records| && records[r].active
      ensures |records| == |old(records)| ==> !old(records)[r].active && records == old(records)[r := Record(true, old(records)[r].realptr)]
      ensures |records| > |old(records)| ==> r == 0 && records == [Record(true, Null)] + old(records)
      ensures |records| > |old(records)| <==> forall i | 0 <= i < |old(records)| :: old(records)[i].active
    {
      r := 0;
      while r < |records|
        invariant r <= |records| && forall i | 0 <= i < r :: records[i].active
      {
        if !records[r].active {
          records := records[r := records[r].(active := true)];
          return;
        }
        r := r + 1;
      }
      records := [Record(true, Null)] + records;
      hazptrCount := hazptrCount + 1;
      r := 0;
    }

    /** What ~HazptrHolder does: the record is cleared and released; it stays on the list. */
    method ReleaseRecord(r: nat)
      requires Valid() && r < |records|
      modifies this`records
      ensures Valid() && records == old(records)[r := Record(false, Null)]
    {
      records := records[r := records[r].(realptr := Null)];
      records := records[r := records[r].(active := false)];
    }

    method ReachedThreshold(count: nat) returns (b: bool)
      requires Valid()
      ensures b <==> count >= 5 && count >= 2 * |records|
    {
      b := count >= SCAN_THRESHOLD && count >= SCAN_MULT * hazptrCount;
    }

    /** append: a whole list, from head to tail, goes in front of the retired list. */
    method Append(list: Ends, ghost s: seq<nat>)
      requires s != [] && AreEnds(objs, list, s) && IsList(objs, retiredList, retired) && retiredCount == |retired|
      requires Distinct(s) && Distinct(retired) && forall n | n in s :: n !in retired
      modifies this`objs, this`retiredList, this`retiredCount, this`retired
      ensures retired == s + old(retired) && retiredCount == |retired| && IsList(objs, retiredList, retired) && Distinct(retired)
      ensures |objs| == |old(objs)| && forall m | 0 <= m < |objs| :: objs[m].deletes == old(objs)[m].deletes
      ensures forall m | 0 <= m < |objs| && m !in s :: objs[m] == old(objs)[m]
    {
      var tail := list.tail.n;
      assert LinkAt(objs, s, |s| - 1);
      objs := objs[tail := objs[tail].(next := retiredList)];
      retiredList := list.head;
      retiredCount := retiredCount + list.count;
      retired := s + retired;
      AppendIsList(old(objs), objs, old(retiredList), old(retired), s);
    }

    /** The pointers in the records, collected by the loop over the hazard pointer list in bulkReclaim. */
    method ProtectedPointers() returns (protected: set<Ptr>)
      ensures forall n: nat :: At(n) in protected <==> IsProtected(records, n)
    {
      protected := {};
      var h := 0;
      while h < |records|
        invariant h <= |records| && forall q :: q in protected <==> exists i :: 0 <= i < h && records[i].realptr == q
      {
        protected := protected + {records[h].realptr};
        h := h + 1;
      }
    }

    /** bulkReclaim */
    method BulkReclaim()
      requires IsList(objs, retiredList, retired) && Distinct(retired) && retiredCount == 0
      modifies this`objs, this`retiredList, this`retiredCount, this`retired
      ensures retired == Kept(records, old(retired)) && retiredCount == |retired|
      ensures IsList(objs, retiredList, retired) && Distinct(retired)
      ensures |objs| == |old(objs)|
      ensures forall n | 0 <= n < |objs| && n !in old(retired) :: objs[n] == old(objs)[n]
      ensures forall n | 0 <= n < |objs| :: objs[n].deletes == old(objs)[n].deletes + Freed(records, old(retired), n)
    {
      var p := retiredList;
      ghost var s := retired;
      retiredList, retired := Null, [];
      var protected := ProtectedPointers();
      var left := Ends(Null, Null, 0);
      ghost var i := 0;
      assert s[0..] == s && s[..0] == [];
      while p.At?
        modifies this`objs
        invariant Scanned(old(objs), objs, records, s, i, p, left)
        decreases |s| - i
      {
        assert p == At(s[i..][0]);
        assert p in protected <==> IsProtected(records, s[i]);
        assert LinkAt(objs, s[i..], 0);
        var next := objs[p.n].next;
        if p in protected {
          KeepOne(old(objs), objs, records, s, i, p, left);
          var r := PushEnds(objs, left, p.n);
          objs, left := r.0, r.1;
        } else {
          DeleteOne(old(objs), objs, records, s, i, p, left);
          objs := objs[p.n := objs[p.n].(deletes := objs[p.n].deletes + 1)];
        }
        p, i := next, i + 1;
      }
      assert s[..i] == s;
      KeptIs(records, s);
      if left.count > 0 {
        Append(left, Kept(records, s));
        assert Kept(records, s) + [] == Kept(records, s);
      }
    }

    /** tryBulkReclaim */
    method TryBulkReclaim()
      requires Valid()
      modifies this`objs, this`retiredList, this`retiredCount, this`retired
      ensures Valid()
      ensures retired == if Enough(old(retired), records) then Kept(records, old(retired)) else old(retired)
      ensures Reclaimed(old(objs), objs, records, old(retired), retired)
      ensures Enough(old(retired), records) ==> |retired| <= |records| && 2 * |retired| <= |old(retired)|
    {
      if retiredCount < SCAN_THRESHOLD || retiredCount < SCAN_MULT * hazptrCount {
        return;
      }
      retiredCount := 0;
      BulkReclaim();
      KeptIs(records, old(retired));
      ScanFreesHalf(records, old(retired));
      ListKept(old(objs), objs, privList.head, priv);
    }

    /** HazptrPrivate::pushAlltoDomain */
    method PushAllToDomain()
      requires Valid() && priv != []
      modifies this`objs, this`retiredList, this`retiredCount, this`retired, this`privList, this`priv
      ensures Valid() && priv == []
      ensures var scanned := old(priv) + old(retired);
        && retired == (if Enough(scanned, records) then Kept(records, scanned) else scanned)
        && Reclaimed(old(objs), objs, records, scanned, retired)
    {
      Append(privList, priv);
      privList, priv := Ends(Null, Null, 0), [];
      ghost var before := objs;
      TryBulkReclaim();
    }

    /** retire: an object that has been unlinked, and retired only once. The fifth object on the private list, or the one that makes
        them twice as many as there are records, starts a scan: it deletes each pending object that no record protects, once. */
    method Retire(n: nat)
      requires Valid() && n < |objs| && objs[n].deletes == 0 && n !in Pending()
      modifies this`objs, this`retiredList, this`retiredCount, this`retired, this`privList, this`priv
      ensures Valid() && |objs| == |old(objs)|
      ensures var all := old(Pending()) + [n];
        var enough := old(|priv|) + 1 >= 5 && old(|priv|) + 1 >= 2 * |records|;
        && (enough ==> priv == [] && forall m :: m in retired <==> m in all && IsProtected(records, m))
        && (!enough ==> priv == old(priv) + [n] && retired == old(retired))
        && (forall m | 0 <= m < |objs| ::
              objs[m].deletes == old(objs)[m].deletes + (if enough && m in all && !IsProtected(records, m) then 1 else 0))
    {
      PushAppends(objs, privList, priv, n);
      PushChanges(objs, privList, n);
      var r := PushEnds(objs, privList, n);
      objs, privList := r.0, r.1;
      ListRestKept(old(objs), objs, old(privList), priv, n, retired);
      ListKept(old(objs), objs, retiredList, retired);
      priv := priv + [n];
      var enough := ReachedThreshold(privList.count);
      if enough {
        KeptIs(records, priv + retired);
        PushAllToDomain();
      }
    }
  }

  predicate Enough(s: seq<nat>, records: seq<Record>) { |s| >= 5 && |s| >= 2 * |records| }

  /** What pending objects may come to: each is still pending, and not deleted, or has been deleted exactly once, and then no
      record protects it. Nothing else is touched. */
  ghost predicate Reclaimed(objs: seq<Obj>, objs': seq<Obj>, records: seq<Record>, s: seq<nat>, s': seq<nat>) {
    && |objs'| == |objs|
    && (forall n | 0 <= n < |objs| :: objs'[n].deletes == objs[n].deletes + (if n in s && n !in s' then 1 else 0))
    && (forall n | n in s' :: n in s)
    && (forall n | n in s && IsProtected(records, n) :: n in s')
  }

  lemma AppendIsList(objs: seq<Obj>, objs': seq<Obj>, p: Ptr, olds: seq<nat>, s: seq<nat>)
    requires s != [] && IsList(objs, At(s[0]), s) && IsList(objs, p, olds) && Distinct(s) && Distinct(olds)
    requires forall n | n in s :: n !in olds
    requires s[|s| - 1] < |objs| && objs' == objs[s[|s| - 1] := objs[s[|s| - 1]].(next := p)]
    ensures IsList(objs', At(s[0]), s + olds) && Distinct(s + olds)
  {
    var t := s + olds;
    forall i | 0 <= i < |t| ensures LinkAt(objs', t, i) {
      if i < |s| - 1 {
        assert LinkAt(objs, s, i) && Differ(s, i, |s| - 1);
      } else if i >= |s| {
        assert LinkAt(objs, olds, i - |s|) && s[|s| - 1] in s && olds[i - |s|] in olds;
      }
    }
    forall i, j | 0 <= i < j < |t| ensures Differ(t, i, j) {
      if j < |s| { assert Differ(s, i, j); } else if i >= |s| { assert Differ(olds, i - |s|, j - |s|); }
      else { assert s[i] in s && olds[j - |s|] in olds; }
    }
  }

  /** A scan that is triggered frees at least half of what it looks at. */
  lemma ScanFreesHalf(records: seq<Record>, s: seq<nat>)
    requires Distinct(s) && Enough(s, records)
    ensures |Kept(records, s)| <= |records| && 2 * |Kept(records, s)| <= |s|
  {
    KeptIs(records, s);
    AtMostOnePerRecord(records, Kept(records, s));
  }
}
