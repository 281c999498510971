/** Sums over the elements of a sequence: how protocol counters are compared with the threads that account for them. */
module Sums {

  /** The sum of `f` over `s`. */
  ghost function Sum<T>(f: T -> int, s: seq<T>): int {
    if s == [] then 0 else Sum(f, s[..|s| - 1]) + f(s[|s| - 1])
  }

  /** Changing one element changes the sum by the difference it makes. */
  lemma {:induction false} SumUpdate<T>(f: T -> int, s: seq<T>, i: nat, x: T)
    requires i < |s|
    ensures Sum(f, s[i := x]) == Sum(f, s) - f(s[i]) + f(x)
  {
    var last := |s| - 1;
    if i == last {
      assert s[i := x][..last] == s[..last];
    } else {
      assert s[i := x][..last] == s[..last][i := x];
      SumUpdate(f, s[..last], i, x);
    }
  }

  lemma {:induction false} SumAppend<T>(f: T -> int, s: seq<T>, x: T)
    ensures Sum(f, s + [x]) == Sum(f, s) + f(x)
  {
    assert (s + [x])[..|s|] == s;
  }

  /** If `lo <= f <= hi` on every element, then the sum is between `lo * |s|` and `hi * |s|`. */
  lemma {:induction false} SumBounds<T>(f: T -> int, s: seq<T>, lo: int, hi: int)
    requires forall x | x in s :: lo <= f(x) <= hi
    ensures lo * |s| <= Sum(f, s) <= hi * |s|
  {
    if s != [] {
      SumBounds(f, s[..|s| - 1], lo, hi);
      assert s[|s| - 1] in s;
      assert lo * |s| == lo * (|s| - 1) + lo && hi * |s| == hi * (|s| - 1) + hi;
    }
  }

  /** A sum of naturals is at least each of its terms. */
  lemma {:induction false} SumAtLeast<T>(f: T -> int, s: seq<T>, i: nat)
    requires i < |s|
    requires forall x | x in s :: 0 <= f(x)
    ensures Sum(f, s) >= f(s[i])
  {
    var last := |s| - 1;
    if i == last {
      SumBounds(f, s[..last], 0, SumCeiling(f, s[..last]));
    } else {
      SumAtLeast(f, s[..last], i);
      assert s[last] in s;
    }
  }

  ghost function SumCeiling<T>(f: T -> int, s: seq<T>): (hi: int)
    ensures forall x | x in s :: f(x) <= hi
  {
    if s == [] then 0
    else var rest := SumCeiling(f, s[..|s| - 1]); if rest < f(s[|s| - 1]) then f(s[|s| - 1]) else rest
  }

  lemma {:induction false} SumAlike<T>(f: T -> int, a: seq<T>, b: seq<T>)
    requires |a| == |b| && forall i | 0 <= i < |a| :: f(a[i]) == f(b[i])
    ensures Sum(f, a) == Sum(f, b)
  {
    if a != [] { SumAlike(f, a[..|a| - 1], b[..|b| - 1]); }
  }

  /** A sum of naturals is zero only if each of its terms is. */
  lemma {:induction false} SumIsZero<T>(f: T -> int, s: seq<T>)
    requires forall x | x in s :: 0 <= f(x)
    ensures Sum(f, s) >= 0
    ensures Sum(f, s) == 0 <==> forall i | 0 <= i < |s| :: f(s[i]) == 0
  {
    if s != [] {
      var init, last := s[..|s| - 1], s[|s| - 1];
      assert last in s;
      SumIsZero(f, init);
      assert forall i | 0 <= i < |init| :: init[i] == s[i];
    }
  }

  /** A sum with one term that is not zero. */
  lemma {:induction false} OnlyOneCounts<T>(f: T -> int, s: seq<T>, i: nat)
    requires i < |s| && forall j | 0 <= j < |s| && j != i :: f(s[j]) == 0
    ensures Sum(f, s) == f(s[i])
  {
    var init, last := s[..|s| - 1], |s| - 1;
    if i == last {
      assert forall x | x in init :: f(x) == 0;
      SumIsZero(f, init);
    } else {
      OnlyOneCounts(f, init, i);
    }
  }

  /** What is zero adds nothing at the end. */
  lemma {:induction false} SumBeyond<T>(f: T -> int, a: seq<T>, b: seq<T>)
    requires |a| <= |b| && forall i | 0 <= i < |a| :: f(b[i]) == f(a[i])
    requires forall i | |a| <= i < |b| :: f(b[i]) == 0
    ensures Sum(f, b) == Sum(f, a)
  {
    if |a| == |b| { SumAlike(f, a, b); } else { SumBeyond(f, a, b[..|b| - 1]); }
  }
}
