/** Quotients and multiples, as far as tab stops, weeks and pages need them. */
module Arithmetic {

  function Min(a: int, b: int): int { if a < b then a else b }
  function Max(a: int, b: int): int { if a < b then b else a }

  lemma MulAtLeast(k: int, m: int)
    requires k >= 1 && m >= 0
    ensures k * m >= m
  {
    assert (k - 1) * m >= 0;
  }

  /** Quotient and remainder are determined by the division equation. */
  lemma QuotientUnique(x: int, m: int, q: int, r: int)
    requires 0 <= r < m && x == q * m + r
    ensures x / m == q && x % m == r
  {
    var p, s := x / m, x % m;
    assert x == p * m + s;
    assert (p - q) * m == r - s;
    if p > q {
      MulAtLeast(p - q, m);
    } else if p < q {
      assert (q - p) * m == s - r;
      MulAtLeast(q - p, m);
    }
  }
}
