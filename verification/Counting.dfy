/** Facts about the size of finite sets of naturals. */
module Counting {

  lemma {:induction false} SubsetCard<T>(a: set<T>, b: set<T>)
    requires a <= b
    ensures |a| <= |b|
  {
    if a != {} {
      var x :| x in a;
      SubsetCard(a - {x}, b - {x});
    }
  }

  /** A set of naturals below `n` has at most `n` elements. */
  lemma {:induction false} BelowCard(a: set<nat>, n: nat)
    requires forall x | x in a :: x < n
    ensures |a| <= n
  {
    if n == 0 {
      assert a == {};
    } else {
      BelowCard(a - {n - 1}, n - 1);
      SubsetCard(a, (a - {n - 1}) + {n - 1});
    }
  }

  /** If `f` sends the elements of `a` to distinct naturals below `n`, then `a` has at most `n` elements. */
  lemma {:induction false} InjectionCard(a: set<nat>, f: nat -> nat, n: nat)
    requires forall x | x in a :: f(x) < n
    requires forall x, y | x in a && y in a && f(x) == f(y) :: x == y
    ensures |a| <= n
  {
    ImageCard(a, f);
    BelowCard(set x | x in a :: f(x), n);
  }

  lemma {:induction false} ImageCard(a: set<nat>, f: nat -> nat)
    requires forall x, y | x in a && y in a && f(x) == f(y) :: x == y
    ensures |set x | x in a :: f(x)| == |a|
  {
    if a != {} {
      var x :| x in a;
      ImageCard(a - {x}, f);
      var image := set y | y in a :: f(y);
      assert image == (set y | y in a - {x} :: f(y)) + {f(x)};
    }
  }
}
