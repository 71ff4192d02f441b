// Quotients and remainders by a variable divisor.

module Modular {

  lemma Multiple(d: int, x: int)
    requires d > 0 && x >= 1
    ensures d * x >= d
    ensures d * -x <= -d
  {
  }

  lemma QuotientUnique(n: int, d: int, q: int, m: int)
    requires d > 0 && n == d * q + m && 0 <= m < d
    ensures n / d == q && n % d == m
  {
    var p, k := n / d, n % d;
    assert n == d * p + k;
    assert d * (p - q) == d * p - d * q;
    if p > q {
      Multiple(d, p - q);
    } else if p < q {
      Multiple(d, q - p);
    }
  }

  lemma AddWithin(n: nat, i: nat, d: nat)
    requires d > 0 && n % d + i < d
    ensures (n + i) % d == n % d + i
  {
    QuotientUnique(n + i, d, n / d, n % d + i);
  }

  lemma UpToMultiple(n: nat, d: nat)
    requires d > 0
    ensures (n + (d - n % d)) % d == 0
  {
    assert d * (n / d + 1) == d * (n / d) + d;
    QuotientUnique(n + (d - n % d), d, n / d + 1, 0);
  }

  /** Positions less than `d` apart fall on different cells. */
  lemma DistinctResidues(p: nat, q: nat, d: nat)
    requires p < q < p + d
    ensures p % d != q % d
  {
    var x := q / d - p / d;
    assert d * x == d * (q / d) - d * (p / d);
    if p % d == q % d {
      assert d * x == q - p;
      if x >= 1 {
        Multiple(d, x);
      } else if x <= -1 {
        Multiple(d, -x);
      }
    }
  }
}
