/** time.Duration arithmetic: signed 64-bit nanoseconds that wrap around, and the doubling back-off. */
module Backoff {
  const TWO_63: int := 0x8000_0000_0000_0000
  const TWO_64: int := 0x1_0000_0000_0000_0000

  type int64 = x: int | -TWO_63 <= x < TWO_63

  function Wrap64(x: int): int64 {
    (x + TWO_63) % TWO_64 - TWO_63
  }

  function Pow2(n: nat): (p: nat)
    ensures p >= 1
  {
    if n == 0 then 1 else 2 * Pow2(n - 1)
  }

  /** `base * time.Duration(1<<uint(n))` as the machine computes it: the shift wraps, then the product does. */
  function MachineBackoff(base: int64, n: nat): int64 {
    Wrap64(base * Wrap64(Pow2(n)))
  }

  /** base doubled n times, in unbounded integers. */
  function Doubled(base: int, n: nat): int {
    if n == 0 then base else 2 * Doubled(base, n - 1)
  }

  lemma {:induction false} DoubledIsProduct(base: int, n: nat)
    ensures Doubled(base, n) == base * Pow2(n)
  {
    if n == 0 {
    } else {
      DoubledIsProduct(base, n - 1);
    }
  }

  lemma {:induction false} DoubledMonotone(base: int, m: nat, n: nat)
    requires base >= 1 && m <= n
    ensures 1 <= base <= Doubled(base, m) <= Doubled(base, n)
    ensures m < n ==> 2 * Doubled(base, m) <= Doubled(base, n)
    decreases m, n
  {
    if m > 0 {
      DoubledMonotone(base, m - 1, n - 1);
    } else if n > 0 {
      DoubledMonotone(base, 0, n - 1);
    }
  }

  lemma PowAtMostDoubled(base: int, n: nat)
    requires base >= 1
    ensures Pow2(n) <= Doubled(base, n)
    ensures base >= 2 ==> 2 * Pow2(n) <= Doubled(base, n)
  {
  }

  lemma WrapInRange(x: int)
    requires -TWO_63 <= x < TWO_64
    ensures Wrap64(x) == if x < TWO_63 then x else x - TWO_64
  {
  }

  /** While base * 2^n fits in 63 bits the machine product is exact. */
  lemma MachineBackoffExact(base: int64, n: nat)
    requires base >= 1 && Doubled(base, n) < TWO_63
    ensures MachineBackoff(base, n) == Doubled(base, n)
  {
    PowAtMostDoubled(base, n);
    WrapInRange(Pow2(n));
    DoubledIsProduct(base, n);
    WrapInRange(Doubled(base, n));
  }

  lemma {:induction false} Pow2Adds(m: nat, n: nat)
    ensures Pow2(m + n) == Pow2(m) * Pow2(n)
  {
    if n == 0 {
    } else {
      Pow2Adds(m, n - 1);
      calc {
        Pow2(m + n);
        2 * Pow2(m + (n - 1));
        2 * (Pow2(m) * Pow2(n - 1));
        Pow2(m) * Pow2(n);
      }
    }
  }

  lemma Pow2Of63()
    ensures Pow2(63) == TWO_63
  {
    assert Pow2(8) == 256;
    assert Pow2(16) == 0x1_0000 by { Pow2Adds(8, 8); }
    assert Pow2(32) == 0x1_0000_0000 by { Pow2Adds(16, 16); }
    assert Pow2(48) == 0x1_0000_0000_0000 by { Pow2Adds(32, 16); }
    assert Pow2(56) == 0x100_0000_0000_0000 by { Pow2Adds(48, 8); }
    assert Pow2(63) == TWO_63 by { Pow2Adds(56, 7); }
  }

  /** No power of two lies strictly between 2^63 and 2^64. */
  lemma OnlyPowerBelow2To64(n: nat)
    requires TWO_63 <= Pow2(n) < TWO_64
    ensures Pow2(n) == TWO_63
  {
    Pow2Of63();
    DoubledIsProduct(1, n);
    DoubledIsProduct(1, 63);
    if n < 63 { DoubledMonotone(1, n, 63); }
    if n > 63 { DoubledMonotone(1, 63, n); }
  }

  /** One bit too many and the machine product is negative. */
  lemma MachineBackoffOverflows(base: int64, n: nat)
    requires base >= 1 && TWO_63 <= Doubled(base, n) < TWO_64
    ensures MachineBackoff(base, n) == Doubled(base, n) - TWO_64 < 0
  {
    PowAtMostDoubled(base, n);
    WrapInRange(Pow2(n));
    DoubledIsProduct(base, n);
    if base == 1 {
      OnlyPowerBelow2To64(n);
    } else {
      WrapInRange(Doubled(base, n));
    }
  }

  lemma WrapMultiple(z: int)
    ensures Wrap64(TWO_64 * z) == 0
  {
  }

  /** From 2^64 on the shift leaves nothing, and the product is nothing. */
  lemma MachineBackoffVanishes(base: int64, n: nat)
    requires n >= 64
    ensures MachineBackoff(base, n) == 0
  {
    Pow2Of63();
    assert Pow2(64) == 2 * Pow2(63) == TWO_64;
    Pow2Adds(64, n - 64);
    WrapMultiple(Pow2(n - 64));
    assert Wrap64(Pow2(n)) == 0;
    WrapMultiple(0);
  }

  /** k is the least number of doublings that takes `base` to `limit`. */
  ghost predicate IsLeastDoubling(base: int, limit: int, k: nat) {
    && limit <= Doubled(base, k)
    && (k > 0 ==> Doubled(base, k - 1) < limit)
  }

  lemma DoubleFirst(base: int, n: nat)
    ensures Doubled(base, n + 1) == Doubled(2 * base, n)
  {
  }

  function Doublings(base: int, limit: int): (k: nat)
    requires base >= 1
    ensures IsLeastDoubling(base, limit, k)
    decreases limit - base
  {
    if limit <= base then 0
    else
      var k := Doublings(2 * base, limit);
      assert Doubled(base, k + 1) == Doubled(2 * base, k) by { DoubleFirst(base, k); }
      assert k > 0 ==> Doubled(base, k) == Doubled(2 * base, k - 1) by { if k > 0 { DoubleFirst(base, k - 1); } }
      k + 1
  }

  lemma LeastDoublingUnique(base: int, limit: int, j: nat, k: nat)
    requires base >= 1 && IsLeastDoubling(base, limit, j) && IsLeastDoubling(base, limit, k)
    ensures j == k
  {
    if j < k { DoubledMonotone(base, j, k - 1); }
    if k < j { DoubledMonotone(base, k, j - 1); }
  }

  function Sum(s: seq<int>): int {
    if s == [] then 0 else s[0] + Sum(s[1..])
  }
}
