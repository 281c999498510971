/** The dequeue counters of one producer's sub-queue in src/concurrent/concurrentqueue.h: one thread enqueues, any number
    of threads dequeue one element (`dequeue`) or many (`dequeue_bulk`).

    A consumer first reserves optimistically on `dequeueOptimisticCount`, looks at the tail again, gives what it reserved
    in excess back through `dequeueOvercommit`, and only then takes indices from `headIndex`. It works with a value of
    `dequeueOvercommit` that may be long out of date. The counters are 64-bit and are compared circularly; the state
    holds them without wrapping, and the steps truncate them where the code compares them. */
module DequeueCounters {
  import opened Bits
  import opened Runs
  import opened Sums

  // ---------- 64-bit comparison ----------

  /** `circular_less_than` on 64-bit words */
  predicate CircularLess(a: nat, b: nat) { Word64(a - b) > 0x8000_0000_0000_0000 }

  /** On truncated counters that are less than 2^63 apart, the circular comparison is the comparison of the counters. */
  lemma CircularLessIsLess(a: int, b: int)
    requires -0x8000_0000_0000_0000 < a - b < 0x8000_0000_0000_0000
    ensures CircularLess(Word64(a), Word64(b)) <==> a < b
  {
    assert Word64(Word64(a) - Word64(b)) == Word64(a - b);
  }

  // ---------- State ----------

  /** How much a consumer wants: `dequeue`, or `dequeue_bulk` of at most `max`. */
  datatype Want = One | Bulk(max: nat)

  datatype Pc =
    | Idle
    | HaveTail(want: Want, tail: nat)
    | HaveOver(want: Want, tail: nat, over: nat)
    | Reserving(want: Want, count: nat, over: nat)    // the first check passed; about to fetch_add the optimistic count
    | Reserved(want: Want, r: nat, over: nat)         // made reservation `r`; about to look at the tail again
    | GiveBack(r: nat, back: nat, take: nat)          // about to add `back` to the overcommit, then to take `take`
    | Take(r: nat, take: nat)                         // about to fetch_add `headIndex`

  /** History: one reservation on the optimistic count, in the order of the fetch_adds. */
  datatype Reservation = Reservation(
    thread: nat,         // the thread
    first: nat,          // what its fetch_add returned
    asked: nat,
    decided: bool,       // it has looked at the tail again ...
    granted: nat,        // ... and may take this many
    returned: nat,       // what it has added to the overcommit
    taken: bool,         // it has its indices ...
    start: nat)          // ... beginning here

  datatype State = State(
    tail: nat, head: nat, optimistic: nat, overcommit: nat,
    threads: seq<Pc>,
    log: seq<Reservation>,
    owner: seq<nat>)     // history: for each index below `head`, the reservation it was handed to

  datatype Step =
    | Enqueue
    | Start(t: nat, want: Want)
    | Act(t: nat)

  function Min(a: nat, b: nat): nat { if a < b then a else b }

  /** `desiredCount` of `dequeue_bulk` (before the cut to `max`), and likewise `actualCount` */
  function Difference(tail: nat, count: int): nat { Word64(tail - count) }

  predicate Enabled(s: State, step: Step) {
    match step
    case Enqueue => true
    case Start(t, _) => t < |s.threads| && s.threads[t].Idle?
    case Act(t) =>
      && t < |s.threads| && !s.threads[t].Idle?
      && (s.threads[t].Reserved? ==> s.threads[t].r < |s.log|)
      && (s.threads[t].GiveBack? ==> s.threads[t].r < |s.log|)
      && (s.threads[t].Take? ==> s.threads[t].r < |s.log|)
  }

  function Goto(s: State, t: nat, pc: Pc): State
    requires t < |s.threads|
  {
    s.(threads := s.threads[t := pc])
  }

  function Next(s: State, step: Step): State
    requires Enabled(s, step)
  {
    match step
    case Enqueue => s.(tail := s.tail + 1)
    case Start(t, want) => Goto(s, t, HaveTail(want, s.tail))
    case Act(t) =>
      match s.threads[t]
      case Idle => s
      case HaveTail(want, tail) => Goto(s, t, HaveOver(want, tail, s.overcommit))
      case HaveOver(want, tail, over) =>
        var enough := if want.One? then CircularLess(Word64(s.optimistic - over), Word64(tail))
                      else CircularLess(0, Difference(tail, s.optimistic - over));
        var count := if want.One? then 1 else Min(Difference(tail, s.optimistic - over), want.max);
        Goto(s, t, if enough then Reserving(want, count, over) else Idle)
      case Reserving(want, count, over) =>
        Goto(s, t, Reserved(want, |s.log|, over)).(
          log := s.log + [Reservation(t, s.optimistic, count, false, 0, 0, false, 0)],
          optimistic := s.optimistic + count)
      case Reserved(want, r, over) =>
        var mine := s.log[r];
        var enough := if want.One? then CircularLess(Word64(mine.first - over), Word64(s.tail))
                      else CircularLess(0, Difference(s.tail, mine.first - over));
        var take := if !enough then 0
                    else if want.One? then 1
                    else Min(mine.asked, Difference(s.tail, mine.first - over));
        Goto(s, t, if enough && take >= mine.asked then Take(r, take) else GiveBack(r, mine.asked - take, take)).(
          log := s.log[r := mine.(decided := true, granted := take)])
      case GiveBack(r, back, take) =>
        Goto(s, t, if take > 0 then Take(r, take) else Idle).(
          log := s.log[r := s.log[r].(returned := s.log[r].returned + back)],
          overcommit := s.overcommit + back)
      case Take(r, take) =>
        Goto(s, t, Idle).(
          log := s.log[r := s.log[r].(taken := true, start := s.head)],
          head := s.head + take,
          owner := s.owner + seq(take, i => r))
  }

  /** The counters that the code compares are less than 2^63 apart: what comparing 64-bit counters circularly needs. */
  ghost predicate Near(s: State) {
    forall t | 0 <= t < |s.threads| ::
      match s.threads[t]
      case HaveOver(_, tail, over) => -0x8000_0000_0000_0000 < s.optimistic - over - tail < 0x8000_0000_0000_0000
      case Reserved(_, r, over) => r < |s.log| ==>
          -0x8000_0000_0000_0000 < s.log[r].first - over - s.tail < 0x8000_0000_0000_0000
      case _ => true
  }

  ghost predicate Init(s: State) {
    && s.tail == s.head == s.optimistic == s.overcommit == 0 && s.log == [] && s.owner == []
    && forall t | 0 <= t < |s.threads| :: s.threads[t] == Idle
  }

  ghost predicate Moves(s: State, s': State) {
    Near(s) && exists step :: Enabled(s, step) && s' == Next(s, step)
  }

  ghost predicate IsDequeueRun(run: seq<State>) { IsRun(Init, Moves, run) }

  // ---------- The invariant ----------

  function Asked(x: Reservation): int { x.asked }

  function Returned(x: Reservation): int { x.returned }

  /** What a reservation still holds: an upper bound of what it takes in the end. */
  function Kept(x: Reservation): int { x.asked - x.returned }

  function Got(x: Reservation): int { if x.taken then x.granted else 0 }

  /** The reservation a thread is working on. */
  ghost predicate WorksOn(pc: Pc, r: nat) {
    (pc.Reserved? || pc.GiveBack? || pc.Take?) && pc.r == r
  }

  predicate Complete(x: Reservation) {
    x.decided && x.returned == x.asked - x.granted && (x.granted > 0 ==> x.taken)
  }

  ghost predicate ThreadInv(s: State, t: nat)
    requires t < |s.threads|
  {
    var pc := s.threads[t];
    && (pc.Reserved? || pc.GiveBack? || pc.Take? ==> pc.r < |s.log| && s.log[pc.r].thread == t)
    && match pc
       case HaveOver(_, _, over) => over <= s.overcommit
       case Reserving(want, count, over) => over <= s.overcommit && (want.One? ==> count == 1)
       case Reserved(want, r, over) =>
         && !s.log[r].decided && over <= Sum(Returned, s.log[..r]) && (want.One? ==> s.log[r].asked == 1)
       case GiveBack(r, back, take) =>
         && s.log[r].decided && s.log[r].returned == 0 && !s.log[r].taken
         && s.log[r].granted == take && back == s.log[r].asked - take
       case Take(r, take) =>
         && s.log[r].decided && !s.log[r].taken
         && s.log[r].granted == take && s.log[r].returned == s.log[r].asked - take
       case _ => true
  }

  ghost predicate ReservationInv(s: State, r: nat)
    requires r < |s.log|
  {
    var x := s.log[r];
    && x.granted + x.returned <= x.asked
    && (!x.decided ==> x.granted == 0 && x.returned == 0 && !x.taken)
    && x.first == Sum(Asked, s.log[..r])
    && (x.granted > 0 ==> Sum(Kept, s.log[..r]) + x.granted <= s.tail)
    && (!Complete(x) ==> x.thread < |s.threads| && WorksOn(s.threads[x.thread], r))
    && (x.taken ==> x.start + x.granted <= s.head)
  }

  ghost predicate Inv(s: State) {
    && (forall t | 0 <= t < |s.threads| :: ThreadInv(s, t))
    && (forall r | 0 <= r < |s.log| :: ReservationInv(s, r))
    && s.optimistic == Sum(Asked, s.log)
    && s.overcommit == Sum(Returned, s.log)
    && s.head == Sum(Got, s.log)
    && OwnerInv(s)
  }

  /** Reservation `r` was handed index `i`. */
  predicate Handed(s: State, r: nat, i: nat) {
    r < |s.log| && s.log[r].taken && s.log[r].start <= i < s.log[r].start + s.log[r].granted
  }

  ghost predicate OwnerInv(s: State) {
    && |s.owner| == s.head
    && (forall i: nat | i < s.head :: Handed(s, s.owner[i], i))
    && (forall r: nat, i: nat | Handed(s, r, i) :: i < |s.owner| && s.owner[i] == r)
  }

  lemma HandedAlike(s: State, s': State)
    requires OwnerInv(s) && s'.owner == s.owner && s'.head == s.head
    requires forall r: nat, i: nat :: Handed(s, r, i) <==> Handed(s', r, i)
    ensures OwnerInv(s')
  {
  }

  // ---------- Sums over a prefix of the reservations ----------

  /** Replacing reservation `r` by one that returns more keeps prefixes of returns from shrinking, and what is kept from growing. */
  lemma {:induction false} PrefixSums(log: seq<Reservation>, r: nat, x: Reservation, n: nat)
    requires r < |log| && n <= |log| && x.asked == log[r].asked && x.returned >= log[r].returned
    ensures Sum(Asked, log[r := x][..n]) == Sum(Asked, log[..n])
    ensures Sum(Returned, log[r := x][..n]) >= Sum(Returned, log[..n])
    ensures Sum(Kept, log[r := x][..n]) <= Sum(Kept, log[..n])
  {
    if r < n {
      assert log[r := x][..n] == log[..n][r := x];
      SumUpdate(Asked, log[..n], r, x);
      SumUpdate(Returned, log[..n], r, x);
      SumUpdate(Kept, log[..n], r, x);
    } else {
      assert log[r := x][..n] == log[..n];
    }
  }

  lemma {:induction false} KeptIsAskedMinusReturned(log: seq<Reservation>)
    ensures Sum(Kept, log) == Sum(Asked, log) - Sum(Returned, log)
  {
    if log != [] { KeptIsAskedMinusReturned(log[..|log| - 1]); }
  }

  /** No prefix of the reservations has taken more than the tail: look at the last of them that took anything. */
  lemma {:induction false} TakenFitsBelowTail(s: State, n: nat)
    requires n <= |s.log| && forall r | 0 <= r < n :: ReservationInv(s, r)
    ensures Sum(Got, s.log[..n]) <= Sum(Kept, s.log[..n])
    ensures Sum(Got, s.log[..n]) <= s.tail
  {
    if n > 0 {
      TakenFitsBelowTail(s, n - 1);
      assert s.log[..n][..n - 1] == s.log[..n - 1] && s.log[..n][n - 1] == s.log[n - 1];
      assert ReservationInv(s, n - 1);
    }
  }

  // ---------- Each step keeps the invariant ----------

  lemma ReserveKeepsThreads(s: State, t: nat, s': State)
    requires Inv(s) && Enabled(s, Act(t)) && s.threads[t].Reserving? && s' == Next(s, Act(t))
    ensures forall t' | 0 <= t' < |s'.threads| :: ThreadInv(s', t')
  {
    assert s'.log[..|s.log|] == s.log;
    SumAppend(Returned, s.log, s'.log[|s.log|]);
    forall t' | 0 <= t' < |s'.threads| ensures ThreadInv(s', t') {
      assert ThreadInv(s, t');
      if t' != t && s.threads[t'].Reserved? { assert s'.log[..s.threads[t'].r] == s.log[..s.threads[t'].r]; }
    }
  }

  lemma ReserveKeepsInv(s: State, t: nat)
    requires Inv(s) && Enabled(s, Act(t)) && s.threads[t].Reserving?
    ensures Inv(Next(s, Act(t)))
  {
    var s', n := Next(s, Act(t)), |s.log|;
    SumAppend(Asked, s.log, s'.log[n]);
    SumAppend(Returned, s.log, s'.log[n]);
    SumAppend(Got, s.log, s'.log[n]);
    assert s'.log[..n] == s.log;
    HandedAlike(s, s');
    ReserveKeepsThreads(s, t, s');
    forall r | 0 <= r < |s'.log| ensures ReservationInv(s', r) {
      if r < n { assert ReservationInv(s, r) && s'.log[..r] == s.log[..r]; }
    }
  }

  /** Steps that change reservation `r` in place, except for taking indices. */
  lemma ChangeKeepsInv(s: State, t: nat, r: nat, x: Reservation, pc: Pc)
    requires Inv(s) && t < |s.threads| && WorksOn(s.threads[t], r) && r < |s.log|
    requires var y := s.log[r];
      && x.thread == y.thread && x.first == y.first && x.asked == y.asked && x.returned >= y.returned && x.granted >= y.granted
      && x.decided && !x.taken && !y.taken && (y.granted > 0 ==> x.granted == y.granted)
      && x.granted + x.returned <= x.asked
    requires x.granted > 0 ==> Sum(Kept, s.log[..r]) + x.granted <= s.tail
    requires Complete(x) || WorksOn(pc, r)
    requires var s' := Goto(s, t, pc).(log := s.log[r := x], overcommit := s.overcommit + x.returned - s.log[r].returned);
      ThreadInv(s', t)
    ensures var s' := Goto(s, t, pc).(log := s.log[r := x], overcommit := s.overcommit + x.returned - s.log[r].returned);
      Inv(s')
  {
    var s' := Goto(s, t, pc).(log := s.log[r := x], overcommit := s.overcommit + x.returned - s.log[r].returned);
    SumUpdate(Asked, s.log, r, x);
    SumUpdate(Returned, s.log, r, x);
    SumUpdate(Got, s.log, r, x);
    HandedAlike(s, s');
    assert ThreadInv(s, t);
    forall r' | 0 <= r' < |s'.log| ensures ReservationInv(s', r') {
      assert ReservationInv(s, r');
      PrefixSums(s.log, r, x, r');
    }
    forall t' | 0 <= t' < |s'.threads| && t' != t ensures ThreadInv(s', t') {
      assert ThreadInv(s, t');
      if s.threads[t'].Reserved? { PrefixSums(s.log, r, x, s.threads[t'].r); }
    }
  }

  /** Looking at the tail again: even with an outdated overcommit, what the reservation may take fits below the tail
      on top of everything that earlier reservations can still take. */
  lemma DecideKeepsInv(s: State, t: nat)
    requires Inv(s) && Near(s) && Enabled(s, Act(t)) && s.threads[t].Reserved?
    ensures Inv(Next(s, Act(t)))
  {
    var s', r, over := Next(s, Act(t)), s.threads[t].r, s.threads[t].over;
    assert ThreadInv(s, t) && ReservationInv(s, r);
    KeptIsAskedMinusReturned(s.log[..r]);
    CircularLessIsLess(s.log[r].first - over, s.tail);
    var d := s.tail - (s.log[r].first - over);
    CircularLessIsLess(0, d);
    assert Difference(s.tail, s.log[r].first - over) == Word64(d);
    assert s'.log[r].granted > 0 ==> s'.log[r].granted <= d;
    ChangeKeepsInv(s, t, r, s'.log[r], s'.threads[t]);
  }

  lemma GiveBackKeepsInv(s: State, t: nat)
    requires Inv(s) && Enabled(s, Act(t)) && s.threads[t].GiveBack?
    ensures Inv(Next(s, Act(t)))
  {
    var s', r := Next(s, Act(t)), s.threads[t].r;
    assert ThreadInv(s, t) && ReservationInv(s, r);
    ChangeKeepsInv(s, t, r, s'.log[r], s'.threads[t]);
  }

  lemma TakeKeepsOwners(s: State, t: nat, s': State)
    requires Inv(s) && Enabled(s, Act(t)) && s.threads[t].Take? && s' == Next(s, Act(t))
    ensures OwnerInv(s')
  {
    var r, take := s.threads[t].r, s.threads[t].take;
    assert ThreadInv(s, t);
    forall i: nat | i < s'.head ensures Handed(s', s'.owner[i], i) {
      if i < s.head { assert Handed(s, s.owner[i], i); }
    }
    forall r': nat, i: nat | Handed(s', r', i) ensures i < |s'.owner| && s'.owner[i] == r' {
      if r' != r { assert Handed(s, r', i); }
    }
  }

  lemma TakeKeepsReservations(s: State, t: nat, s': State)
    requires Inv(s) && Enabled(s, Act(t)) && s.threads[t].Take? && s' == Next(s, Act(t))
    ensures forall r | 0 <= r < |s'.log| :: ReservationInv(s', r)
  {
    var r := s.threads[t].r;
    assert ThreadInv(s, t) && ReservationInv(s, r);
    forall r' | 0 <= r' < |s'.log| ensures ReservationInv(s', r') {
      assert ReservationInv(s, r');
      PrefixSums(s.log, r, s'.log[r], r');
    }
  }

  lemma TakeKeepsInv(s: State, t: nat)
    requires Inv(s) && Enabled(s, Act(t)) && s.threads[t].Take?
    ensures Inv(Next(s, Act(t)))
  {
    var s', r := Next(s, Act(t)), s.threads[t].r;
    assert ThreadInv(s, t) && ReservationInv(s, r);
    SumUpdate(Asked, s.log, r, s'.log[r]);
    SumUpdate(Returned, s.log, r, s'.log[r]);
    SumUpdate(Got, s.log, r, s'.log[r]);
    TakeKeepsOwners(s, t, s');
    TakeKeepsReservations(s, t, s');
    forall t' | 0 <= t' < |s'.threads| && t' != t ensures ThreadInv(s', t') {
      assert ThreadInv(s, t');
      if s.threads[t'].Reserved? { PrefixSums(s.log, r, s'.log[r], s.threads[t'].r); }
    }
  }

  lemma QuietKeepsInv(s: State, step: Step)
    requires Inv(s) && Near(s) && Enabled(s, step)
    requires step.Act? ==> s.threads[step.t].HaveTail? || s.threads[step.t].HaveOver?
    ensures Inv(Next(s, step))
  {
    var s' := Next(s, step);
    HandedAlike(s, s');
    forall t' | 0 <= t' < |s'.threads| ensures ThreadInv(s', t') { assert ThreadInv(s, t'); }
    forall r | 0 <= r < |s'.log| ensures ReservationInv(s', r) { assert ReservationInv(s, r); }
  }

  lemma StepKeepsInv(s: State, s': State)
    requires Inv(s) && Moves(s, s')
    ensures Inv(s')
  {
    var step :| Enabled(s, step) && s' == Next(s, step);
    match step
    case Enqueue => QuietKeepsInv(s, step);
    case Start(_, _) => QuietKeepsInv(s, step);
    case Act(t) =>
      match s.threads[t]
      case Reserving(_, _, _) => ReserveKeepsInv(s, t);
      case Reserved(_, _, _) => DecideKeepsInv(s, t);
      case GiveBack(_, _, _) => GiveBackKeepsInv(s, t);
      case Take(_, _) => TakeKeepsInv(s, t);
      case _ => QuietKeepsInv(s, step);
  }

  lemma RunKeepsInv(run: seq<State>, n: nat)
    requires IsDequeueRun(run) && n < |run|
    ensures Inv(run[n])
  {
    forall s, s' | Inv(s) && Moves(s, s') ensures Inv(s') { StepKeepsInv(s, s'); }
    InvariantOfRun(Init, Moves, Inv, run);
  }

  // ---------- What holds in every state of every run ----------

  /** `headIndex` never passes `tailIndex`. */
  lemma HeadNeverPassesTail(run: seq<State>, n: nat)
    requires IsDequeueRun(run) && n < |run|
    ensures run[n].head <= run[n].tail
  {
    RunKeepsInv(run, n);
    TakenFitsBelowTail(run[n], |run[n].log|);
    assert run[n].log[..|run[n].log|] == run[n].log;
  }

  ghost predicate Takes(s: State, step: Step, s': State) { Near(s) && Enabled(s, step) && s' == Next(s, step) }

  function Enqueues(step: Step): int { if step.Enqueue? then 1 else 0 }

  /** `tailIndex` is the number of elements that have been enqueued. */
  lemma {:induction false} TailCountsEnqueues(run: seq<State>, steps: seq<Step>)
    requires Follows(Init, Takes, run, steps)
    ensures run[|steps|].tail == Sum(Enqueues, steps)
  {
    if steps != [] {
      var n := |steps| - 1;
      assert Takes(run[n], steps[n], run[n + 1]);
      TailCountsEnqueues(run[..|steps|], steps[..n]);
    }
  }

  /** Every index below `headIndex` was handed to exactly one dequeue, and all of them are indices of enqueued elements. */
  lemma EachIndexIsHandedOutOnce(run: seq<State>, n: nat, i: nat)
    requires IsDequeueRun(run) && n < |run|
    ensures i < run[n].head <==> exists r: nat :: Handed(run[n], r, i)
    ensures forall r: nat, r': nat | Handed(run[n], r, i) && Handed(run[n], r', i) :: r == r'
    ensures i < run[n].head ==> i < run[n].tail
  {
    RunKeepsInv(run, n);
    HeadNeverPassesTail(run, n);
    if i < run[n].head { assert Handed(run[n], run[n].owner[i], i); }
  }

  ghost predicate AllIdle(s: State) { forall t | 0 <= t < |s.threads| :: s.threads[t].Idle? }

  /** Whenever no dequeue is in flight, the optimistic count less the overcommit is the head. */
  lemma CountsAgreeWhenQuiet(run: seq<State>, n: nat)
    requires IsDequeueRun(run) && n < |run| && AllIdle(run[n])
    ensures run[n].optimistic - run[n].overcommit == run[n].head
  {
    RunKeepsInv(run, n);
    QuietCounts(run[n]);
  }

  lemma QuietCounts(s: State)
    requires Inv(s) && AllIdle(s)
    ensures s.optimistic - s.overcommit == s.head <= s.tail
  {
    forall r | 0 <= r < |s.log| ensures Complete(s.log[r]) { assert ReservationInv(s, r); }
    CompleteSums(s.log);
    TakenFitsBelowTail(s, |s.log|);
    assert s.log[..|s.log|] == s.log;
  }

  lemma {:induction false} CompleteSums(log: seq<Reservation>)
    requires forall x | x in log :: Complete(x)
    ensures Sum(Asked, log) - Sum(Returned, log) == Sum(Got, log)
  {
    if log != [] {
      CompleteSums(log[..|log| - 1]);
      assert Complete(log[|log| - 1]);
    }
  }

  // ---------- What a dequeue comes away with ----------

  /** How many of the elements up to `tail` are left for a reservation when `before` are promised to others. */
  function Available(tail: int, before: int): nat { if before < tail then tail - before else 0 }

  /** The first look: a dequeue goes on exactly if, by the values that it has loaded, something is left, and a bulk dequeue asks for
      as much of it as it may take. */
  lemma AsksForWhatIsThere(s: State, t: nat)
    requires Near(s) && Enabled(s, Act(t)) && s.threads[t].HaveOver?
    ensures var pc, pc' := s.threads[t], Next(s, Act(t)).threads[t];
      var left := Available(pc.tail, s.optimistic - pc.over);
      && (left == 0 ==> pc'.Idle?)
      && (left > 0 ==> pc' == Reserving(pc.want, if pc.want.One? then 1 else Min(left, pc.want.max), pc.over))
  {
    var pc := s.threads[t];
    CircularLessIsLess(s.optimistic - pc.over, pc.tail);
    CircularLessIsLess(0, pc.tail - (s.optimistic - pc.over));
  }

  /** The second look: of what it has asked for, a dequeue is granted all that is left now, and gives back the rest. */
  lemma IsGrantedWhatIsThere(s: State, t: nat)
    requires Inv(s) && Near(s) && Enabled(s, Act(t)) && s.threads[t].Reserved?
    ensures var pc, s' := s.threads[t], Next(s, Act(t));
      var asked, left := s.log[pc.r].asked, Available(s.tail, s.log[pc.r].first - pc.over);
      var granted := Min(asked, left);
      && s' == Goto(s, t, s'.threads[t]).(log := s.log[pc.r := s.log[pc.r].(decided := true, granted := granted)])
      && s'.threads[t] == if 0 < left && asked <= left then Take(pc.r, asked) else GiveBack(pc.r, asked - granted, granted)
  {
    var pc := s.threads[t];
    assert ThreadInv(s, t);
    CircularLessIsLess(s.log[pc.r].first - pc.over, s.tail);
    CircularLessIsLess(0, s.tail - (s.log[pc.r].first - pc.over));
  }

  /** In `run` nobody but thread `t` takes a step. */
  ghost predicate Alone(run: seq<State>, t: nat) {
    |run| > 0 && forall n | 0 < n < |run| :: ActsAlone(run[n - 1], run[n], t)
  }

  ghost predicate ActsAlone(s: State, s': State, t: nat) { Near(s) && Enabled(s, Act(t)) && s' == Next(s, Act(t)) }

  /** Thread `t` was handed index `i`. */
  ghost predicate HandedTo(s: State, t: nat, i: nat) { exists r: nat :: Handed(s, r, i) && s.log[r].thread == t }

  /** A dequeue that nobody interferes with is handed as many of the elements that are there as it wants, from the head on;
      so it comes away with nothing only if the queue is empty, or if it wants nothing. */
  lemma DequeueAlone(s: State, t: nat, want: Want) returns (run: seq<State>, got: nat)
    requires Inv(s) && AllIdle(s) && t < |s.threads| && s.tail - s.head < 0x8000_0000_0000_0000
    ensures Alone(run, t) && run[0] == Next(s, Start(t, want)) && AllIdle(run[|run| - 1])
    ensures want.One? ==> got == if s.head < s.tail then 1 else 0
    ensures want.Bulk? ==> got == if want.max < s.tail - s.head then want.max else s.tail - s.head
    ensures var last := run[|run| - 1];
      && Inv(last) && last.tail == s.tail && last.head == s.head + got
      && (forall i: nat | s.head <= i < s.head + got :: HandedTo(last, t, i))
  {
    QuietCounts(s);
    var s1 := Next(s, Start(t, want));
    var s2 := Next(s1, Act(t));
    assert Moves(s, s1) && ActsAlone(s1, s2, t);
    StepKeepsInv(s, s1);
    StepKeepsInv(s1, s2);
    AsksForWhatIsThere(s2, t);
    var s3 := Next(s2, Act(t));
    assert ActsAlone(s2, s3, t);
    StepKeepsInv(s2, s3);
    run, got := [s1, s2, s3], 0;
    if s3.threads[t].Reserving? {
      got := s3.threads[t].count;
      var rest := ReservesAlone(s3, t);
      run := [s1, s2] + rest;
    }
  }

  lemma ReservesAlone(s: State, t: nat) returns (run: seq<State>)
    requires Inv(s) && t < |s.threads| && s.threads[t].Reserving? && s.threads[t].count <= s.tail - s.head < 0x8000_0000_0000_0000
    requires s.head < s.tail && s.optimistic - s.threads[t].over == s.head
    requires forall u | 0 <= u < |s.threads| && u != t :: s.threads[u].Idle?
    ensures Alone(run, t) && run[0] == s && AllIdle(run[|run| - 1])
    ensures var last, got := run[|run| - 1], s.threads[t].count;
      && Inv(last) && last.tail == s.tail && last.head == s.head + got
      && (forall i: nat | s.head <= i < s.head + got :: HandedTo(last, t, i))
  {
    var got, r, over, want := s.threads[t].count, |s.log|, s.threads[t].over, s.threads[t].want;
    var s1 := Next(s, Act(t));
    assert s1.threads == s.threads[t := Reserved(want, r, over)] && s1.log[r] == Reservation(t, s.optimistic, got, false, 0, 0, false, 0);
    ReserveKeepsInv(s, t);
    IsGrantedWhatIsThere(s1, t);
    DecideKeepsInv(s1, t);
    var s2 := Next(s1, Act(t));
    assert s2.threads == s.threads[t := Take(r, got)] && s2.log[r] == Reservation(t, s.optimistic, got, true, got, 0, false, 0);
    var s3 := TakesAlone(s2, t);
    assert s3.threads == s.threads[t := Idle];
    run := [s, s1, s2, s3];
    assert ActsAlone(s, s1, t) && ActsAlone(s1, s2, t);
  }

  lemma TakesAlone(s: State, t: nat) returns (s': State)
    requires Inv(s) && t < |s.threads| && s.threads[t].Take? && forall u | 0 <= u < |s.threads| && u != t :: s.threads[u].Idle?
    ensures ActsAlone(s, s', t) && Inv(s') && s'.threads == s.threads[t := Idle]
    ensures s'.tail == s.tail && s'.head == s.head + s.threads[t].take
    ensures forall i: nat | s.head <= i < s'.head :: HandedTo(s', t, i)
  {
    var r := s.threads[t].r;
    assert ThreadInv(s, t);
    TakeKeepsInv(s, t);
    s' := Next(s, Act(t));
    forall i: nat | s.head <= i < s'.head ensures HandedTo(s', t, i) { assert Handed(s', r, i); }
  }
}
