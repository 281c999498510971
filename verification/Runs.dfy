/** Runs of a state machine, and the induction over a run that every protocol in this project uses. */
module Runs {

  /** `run` starts in an initial state and takes one step of `next` at a time. */
  ghost predicate IsRun<S(!new)>(init: S -> bool, next: (S, S) -> bool, run: seq<S>) {
    && |run| > 0
    && init(run[0])
    && forall i | 0 < i < |run| :: next(run[i - 1], run[i])
  }

  /** A predicate that holds initially and survives each step holds in every state of every run. */
  lemma {:induction false} InvariantOfRun<S(!new)>(init: S -> bool, next: (S, S) -> bool, inv: S -> bool, run: seq<S>)
    requires IsRun(init, next, run)
    requires forall s | init(s) :: inv(s)
    requires forall s, s' | inv(s) && next(s, s') :: inv(s')
    ensures forall i | 0 <= i < |run| :: inv(run[i])
  {
    if |run| > 1 {
      var prefix := run[..|run| - 1];
      InvariantOfRun(init, next, inv, prefix);
      assert prefix[|run| - 2] == run[|run| - 2];
      assert next(run[|run| - 2], run[|run| - 1]);
    }
  }

  /** One sequence of steps goes on where another has ended. */
  lemma Joined<S(!new)>(next: (S, S) -> bool, a: seq<S>, b: seq<S>)
    requires |a| > 0 && |b| > 0 && a[|a| - 1] == b[0]
    requires forall i | 0 < i < |a| :: next(a[i - 1], a[i])
    requires forall i | 0 < i < |b| :: next(b[i - 1], b[i])
    ensures var all := a + b[1..]; all[|all| - 1] == b[|b| - 1] && forall i | 0 < i < |all| :: next(all[i - 1], all[i])
  {
    var all := a + b[1..];
    forall i | 0 < i < |all| ensures next(all[i - 1], all[i]) {
      if i >= |a| {
        var k := i - |a| + 1;
        assert all[i] == b[k] && all[i - 1] == b[k - 1];
      }
    }
  }

  /** `steps[i]` is the step that leads from state `i` of the run to the next. */
  ghost predicate Follows<S(!new), L(!new)>(init: S -> bool, takes: (S, L, S) -> bool, run: seq<S>, steps: seq<L>) {
    && |run| == |steps| + 1
    && init(run[0])
    && forall i | 0 <= i < |steps| :: takes(run[i], steps[i], run[i + 1])
  }

  lemma FollowsIsRun<S(!new), L(!new)>(init: S -> bool, takes: (S, L, S) -> bool, next: (S, S) -> bool, run: seq<S>, steps: seq<L>)
    requires Follows(init, takes, run, steps)
    requires forall s, step, s' | takes(s, step, s') :: next(s, s')
    ensures IsRun(init, next, run)
  {
    forall i | 0 < i < |run| ensures next(run[i - 1], run[i]) { assert takes(run[i - 1], steps[i - 1], run[i - 1 + 1]); }
  }

  /** What holds at time `n`, and at no time without the event unless it held before, has held ever since some event. */
  lemma {:induction false} Since(holds: nat -> bool, event: nat -> bool, n: nat) returns (m: nat)
    requires holds(n) && forall i: nat | i <= n :: HoldsFrom(holds, event, i)
    ensures m <= n && event(m) && forall i: nat | m <= i <= n :: holds(i)
  {
    assert HoldsFrom(holds, event, n);
    m := n;
    if !event(n) { m := Since(holds, event, n - 1); }
  }

  ghost predicate HoldsFrom(holds: nat -> bool, event: nat -> bool, i: nat) { holds(i) ==> event(i) || (i > 0 && holds(i - 1)) }

  // ---------- Runs without end ----------

  /** Waiting at time `i` goes on for one more unit of time, but not beyond time `m`, or ends. */
  ghost predicate GoesOnOrEnds(waits: nat -> bool, over: nat -> bool, i: nat, m: nat) {
    waits(i) ==> over(i + 1) || (i < m && waits(i + 1))
  }

  lemma {:induction false} WaitEnds(waits: nat -> bool, over: nat -> bool, n: nat, m: nat) returns (k: nat)
    requires n <= m && waits(n) && forall i: nat | n <= i <= m :: GoesOnOrEnds(waits, over, i, m)
    ensures n < k && over(k)
    decreases m - n
  {
    assert GoesOnOrEnds(waits, over, n, m);
    k := n + 1;
    if !over(k) { k := WaitEnds(waits, over, n + 1, m); }
  }
}
