/** Facts about numbers that several modules need. */
module Arithmetic {
  function Pow256(k: nat): (p: nat)
    ensures p > 0
  {
    if k == 0 then 1 else 256 * Pow256(k - 1)
  }

  lemma NonNegative(a: nat, b: nat)
    ensures 0 <= a * b
  {
  }

  /** Quotient and remainder are the only numbers that fit. */
  lemma QuotientUnique(n: nat, d: nat, q: nat, r: nat)
    requires n == q * d + r && r < d
    ensures n / d == q && n % d == r
  {
    var k := n / d;
    assert n == k * d + n % d;
    if k < q {
      assert q * d == k * d + d + (q - k - 1) * d;
      NonNegative(q - k - 1, d);
    } else if q < k {
      assert k * d == q * d + d + (k - q - 1) * d;
      NonNegative(k - q - 1, d);
    }
  }

  lemma DivDiv(n: nat, p: nat)
    requires p > 0
    ensures n / (256 * p) == n / 256 / p
  {
    var m := n / 256;
    var q, r := m / p, m % p;
    assert n == q * (256 * p) + (256 * r + n % 256);
    QuotientUnique(n, 256 * p, q, 256 * r + n % 256);
  }
}
