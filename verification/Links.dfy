/** Pointers to numbered objects, and sequences of such objects. */
module Links {

  datatype Ptr = Null | At(n: nat)

  /** The pointer to element `i` of `s`, or null behind its end. */
  function From(s: seq<nat>, i: nat): Ptr { if i < |s| then At(s[i]) else Null }

  /** No object occurs twice. */
  ghost predicate Distinct(s: seq<nat>) {
    forall i, j {:trigger Differ(s, i, j)} {:trigger s[i], s[j]} | 0 <= i < j < |s| :: Differ(s, i, j)
  }

  predicate Differ(s: seq<nat>, i: nat, j: nat)
    requires i < j < |s|
  {
    s[i] != s[j]
  }
}
