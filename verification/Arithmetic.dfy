/** Facts about powers of two, products and quotients that several modules need. */
module Arithmetic {
  import opened Types

  lemma {:induction false} Pow2Add(m: nat, n: nat)
    ensures Pow2(m + n) == Pow2(m) * Pow2(n)
  {
    if m > 0 {
      Pow2Add(m - 1, n);
      assert Pow2(m + n) == 2 * (Pow2(m - 1) * Pow2(n));
    }
  }

  lemma {:induction false} Pow2Strict(m: nat, n: nat)
    requires m < n
    ensures Pow2(m) < Pow2(n)
    decreases n
  {
    if m < n - 1 {
      Pow2Strict(m, n - 1);
    }
  }

  lemma Scale(t: nat, a: int, b: int)
    requires a <= b
    ensures t * a <= t * b && a * t <= b * t
  {
  }

  /** The quotient is the only q with q d <= n < (q + 1) d. */
  lemma QuotientIs(n: nat, d: nat, q: nat)
    requires d > 0 && d * q <= n < d * q + d
    ensures n / d == q
  {
    var k := n / d;
    assert d * k <= n < d * k + d;
    if k < q {
      assert d * (k + 1) == d * k + d;
      Scale(d, k + 1, q);
    } else if q < k {
      assert d * (q + 1) == d * q + d;
      Scale(d, q + 1, k);
    }
  }

  lemma QuotientBetween(n: nat, d: nat, lo: nat, hi: nat)
    requires d > 0 && d * lo <= n < d * hi
    ensures lo <= n / d < hi
  {
    var k := n / d;
    assert d * k <= n < d * k + d;
    if k < lo {
      assert d * (k + 1) == d * k + d;
      Scale(d, k + 1, lo);
    } else if hi <= k {
      Scale(d, hi, k);
    }
  }
}
