/** Bit operations on naturals, as the containers use them: masks by a power of two minus one, right shifts,
    and rounding a capacity up to a power of two. */
module Bits {

  function Pow2(k: nat): (p: nat)
    ensures p > 0
  {
    if k == 0 then 1 else 2 * Pow2(k - 1)
  }

  /** The machine's `x & y`. */
  function BitAnd(x: nat, y: nat): nat {
    if x == 0 || y == 0 then 0
    else 2 * BitAnd(x / 2, y / 2) + (if x % 2 == 1 && y % 2 == 1 then 1 else 0)
  }

  /** The machine's `x >> k`. */
  function ShiftRight(x: nat, k: nat): nat {
    if k == 0 then x else ShiftRight(x / 2, k - 1)
  }

  /** One more than the position of the highest set bit, and 0 for 0. */
  function FindLastSet(x: nat): nat {
    if x == 0 then 0 else 1 + FindLastSet(x / 2)
  }

  function NextPowTwo(v: nat): nat {
    if v == 0 then 1 else Pow2(FindLastSet(v - 1))
  }

  lemma HalvesOfMod(x: nat, p: nat)
    requires p > 0
    ensures x % (2 * p) == 2 * ((x / 2) % p) + x % 2
    ensures x / (2 * p) == (x / 2) / p
  {
    var q, r := (x / 2) / p, (x / 2) % p;
    assert x / 2 == q * p + r;
    assert x == q * (2 * p) + (2 * r + x % 2);
    DivModUnique(x, 2 * p, q, 2 * r + x % 2);
  }

  /** Quotient and remainder are the only numbers that fit. */
  lemma DivModUnique(x: int, d: int, q: int, r: int)
    requires d > 0 && 0 <= r < d && x == q * d + r
    ensures x / d == q && x % d == r
  {
    var q', r' := x / d, x % d;
    MulGap(q - q', d);
    assert (q - q') * d == r' - r;
  }

  /** A multiple of `d` that is closer to zero than `d` is zero. */
  lemma MulGap(m: int, d: int)
    requires d > 0
    ensures -d < m * d < d ==> m == 0
  {
    if m >= 1 {
      assert m * d == d + (m - 1) * d;
    } else if m <= -1 {
      assert m * d == -d + (m + 1) * d;
    }
  }

  lemma DivModMinus(x: nat, d: nat)
    requires d > 0 && x / d > 0
    ensures x >= d && (x - d) / d == x / d - 1 && (x - d) % d == x % d
  {
    var q, r := x / d, x % d;
    assert x == q * d + r;
    assert q * d == (q - 1) * d + d;
    assert (q - 1) * d >= 0;
    DivModUnique(x - d, d, q - 1, r);
  }

  /** Comparing quotients compares numbers with the same remainder. */
  lemma DivModOrder(x: nat, y: nat, d: nat)
    requires d > 0 && x % d == y % d
    ensures x / d <= y / d ==> x <= y
    ensures x / d == y / d ==> x == y
  {
    assert x == (x / d) * d + x % d && y == (y / d) * d + y % d;
    assert y - x == (y / d - x / d) * d;
  }

  /** Masking with a power of two minus one is the remainder. */
  lemma {:induction false} MaskIsMod(x: nat, k: nat)
    ensures BitAnd(x, Pow2(k) - 1) == x % Pow2(k)
  {
    if k > 0 {
      MaskIsMod(x / 2, k - 1);
      HalvesOfMod(x, Pow2(k - 1));
      assert (Pow2(k) - 1) / 2 == Pow2(k - 1) - 1 && (Pow2(k) - 1) % 2 == 1;
      if x == 0 || Pow2(k) - 1 == 0 {
      } else {
        assert BitAnd(x, Pow2(k) - 1) == 2 * BitAnd(x / 2, Pow2(k - 1) - 1) + x % 2;
      }
    }
  }

  /** Shifting right divides. */
  lemma {:induction false} ShiftIsDiv(x: nat, k: nat)
    ensures ShiftRight(x, k) == x / Pow2(k)
  {
    if k > 0 {
      ShiftIsDiv(x / 2, k - 1);
      HalvesOfMod(x, Pow2(k - 1));
    }
  }

  lemma {:induction false} FindLastSetBounds(x: nat)
    ensures x < Pow2(FindLastSet(x))
    ensures x > 0 ==> Pow2(FindLastSet(x) - 1) <= x
  {
    if x > 1 {
      FindLastSetBounds(x / 2);
      assert Pow2(FindLastSet(x) - 1) == 2 * Pow2(FindLastSet(x / 2) - 1);
    }
  }

  lemma {:induction false} Pow2Monotone(j: nat, k: nat)
    requires j <= k
    ensures Pow2(j) <= Pow2(k)
  {
    if j < k { Pow2Monotone(j, k - 1); }
  }

  lemma {:induction false} Pow2Sum(j: nat, k: nat)
    ensures Pow2(j + k) == Pow2(j) * Pow2(k)
  {
    if k > 0 { Pow2Sum(j, k - 1); }
  }

  /** `nextPowTwo` yields the least power of two that is not below its argument. */
  lemma NextPowTwoIsLeast(v: nat) returns (k: nat)
    ensures NextPowTwo(v) == Pow2(k) && v <= Pow2(k)
    ensures forall j: nat | v <= Pow2(j) :: k <= j
  {
    if v <= 1 {
      k := 0;
    } else {
      k := FindLastSet(v - 1);
      FindLastSetBounds(v - 1);
      forall j: nat | v <= Pow2(j) ensures k <= j {
        if j < k { Pow2Monotone(j, k - 1); }
      }
    }
  }

  // ---------- 64-bit words ----------

  /** The value of a 64-bit unsigned computation. */
  function Word64(x: int): nat { x % 0x1_0000_0000_0000_0000 }

  lemma Pow2Of64()
    ensures Pow2(64) == 0x1_0000_0000_0000_0000
  {
    assert Pow2(8) == 0x100;
    Pow2Sum(8, 8);
    Pow2Sum(16, 16);
    Pow2Sum(32, 32);
  }

  /** A multiple of the modulus does not change the remainder. */
  lemma AddMultiple(x: int, m: int, d: int)
    requires d > 0
    ensures (x + m * d) % d == x % d
  {
    assert x == (x / d) * d + x % d;
    assert (x / d + m) * d == (x / d) * d + m * d;
    DivModUnique(x + m * d, d, x / d + m, x % d);
  }

  /** Reducing by a multiple of `d` first leaves the same remainder by `d`. */
  lemma ModOfMod(x: int, m: int, d: int)
    requires d > 0 && m > 0
    ensures m * d > 0 && (x % (m * d)) % d == x % d
  {
    MulMonotone(1, m, d);
    var q, r := x / (m * d), x % (m * d);
    assert x == q * (m * d) + r;
    assert q * (m * d) == (q * m) * d;
    AddMultiple(r, q * m, d);
  }

  /** Scaling a number and the modulus scales the remainder. */
  lemma ModOfScaled(x: int, m: int, d: int)
    requires d > 0 && m > 0
    ensures m * d > 0 && (x * d) % (m * d) == (x % m) * d
  {
    MulMonotone(1, m, d);
    var q, r := x / m, x % m;
    assert x == q * m + r;
    assert x * d == (q * m + r) * d == (q * m) * d + r * d == q * (m * d) + r * d;
    MulMonotone(0, r, d);
    MulMonotone(r, m - 1, d);
    assert (m - 1) * d == m * d - d;
    DivModUnique(x * d, m * d, q, r * d);
  }

  lemma MulMonotone(x: int, y: int, d: int)
    requires x <= y && d >= 0
    ensures x * d <= y * d
  {
    assert y * d == x * d + (y - x) * d;
    assert (y - x) * d >= 0;
  }

  lemma Distribute(x: int, y: int, d: int)
    ensures (x - y) * d == x * d - y * d
  {
  }

  lemma RemainderOfSum(x: nat, y: nat, d: nat)
    requires 0 < d && x % d == 0 && y < d
    ensures (x + y) % d == y
  {
    assert x == (x / d) * d + x % d;
    DivModUnique(x + y, d, x / d, y);
  }
}
