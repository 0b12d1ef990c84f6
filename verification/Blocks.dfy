/** Arithmetic of equal-sized blocks of ranks, frames or indices. */
module Blocks {
  function Min(a: int, b: int): int { if a <= b then a else b }

  function Max(a: int, b: int): int { if a >= b then a else b }

  lemma MulLe(x: nat, y: nat, z: nat)
    requires x <= y
    ensures x * z <= y * z
  {
  }

  lemma Cancel(x: nat, y: nat, z: nat)
    ensures x * z < y * z ==> x < y
  {
    if y <= x {
      MulLe(y, x, z);
    }
  }

  /** `q` is the block of `a` exactly when `a` lies between the block's ends. */
  lemma QuotientIs(a: nat, size: nat, q: nat)
    requires size > 0
    ensures a / size == q <==> q * size <= a < (q + 1) * size
  {
    var d := a / size;
    assert a == d * size + a % size;
    if q < d {
      assert (q + 1) * size <= d * size;
    } else if q > d {
      assert (d + 1) * size <= q * size;
    }
  }

  /** Quotient and remainder are determined by the decomposition. */
  lemma Decomposition(i: nat, m: nat, k: nat, rest: nat)
    requires rest < m && i == rest + k * m
    ensures i / m == k && i % m == rest
  {
    QuotientIs(i, m, k);
    assert i == (i / m) * m + i % m;
  }

  lemma QuotientAtLeast(a: nat, m: nat, q: nat)
    requires m > 0 && q * m <= a
    ensures q <= a / m
  {
    QuotientIs(a, m, a / m);
    Cancel(q, a / m + 1, m);
  }

  lemma NextRemainder(x: nat, p: nat)
    requires p > 0
    ensures (x + 1) % p == if x % p + 1 < p then x % p + 1 else 0
  {
    var q, r := x / p, x % p;
    assert x == q * p + r;
    if r + 1 < p {
      Decomposition(x + 1, p, q, r + 1);
    } else {
      assert x + 1 == (q + 1) * p;
      Decomposition(x + 1, p, q + 1, 0);
    }
  }

  lemma OnlyMultiple(t: int, p: nat)
    requires 0 < t * p < 2 * p
    ensures t == 1
  {
  }

  /** Two numbers that add up to one less than a multiple of `p` have complementary remainders. */
  lemma ComplementaryRemainders(a: nat, b: nat, m: nat, p: nat)
    requires p > 0 && a + b + 1 == m * p
    ensures a % p + b % p == p - 1
  {
    var t := m - a / p - b / p;
    assert a == (a / p) * p + a % p && b == (b / p) * p + b % p;
    assert (m - a / p - b / p) * p == m * p - (a / p) * p - (b / p) * p;
    OnlyMultiple(t, p);
  }
}
