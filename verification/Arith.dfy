/** Facts about products and quotients that the solver does not find by itself. */
module Arith {

  /** Quotient and remainder are determined by their defining equation. */
  lemma DivUnique(n: int, p: int, q: int, r: int)
    requires p > 0 && 0 <= r < p && n == p * q + r
    ensures n / p == q && n % p == r
  {
    var q2, r2 := n / p, n % p;
    assert p * (q - q2) == r2 - r;
    assert q - q2 >= 1 ==> p * (q - q2) >= p;
    assert q - q2 <= -1 ==> p * (q - q2) <= -p;
  }

  lemma {:induction false} MulAtLeast(p: nat, d: nat)
    ensures p * d >= 0 && (p > 0 && d > 0 ==> p * d >= 1)
    decreases d
  {
    if d > 0 {
      MulAtLeast(p, d - 1);
      assert p * d == p * (d - 1) + p;
    }
  }

  lemma MulMono(p: nat, a: int, b: int)
    ensures a <= b ==> p * a <= p * b
    ensures p > 0 && a < b ==> p * a < p * b
  {
    if a <= b {
      MulAtLeast(p, b - a);
      assert p * b == p * a + p * (b - a);
    }
  }

  /** Below a multiple, the quotient is below the factor. */
  lemma DivBelow(x: nat, p: nat, q: nat)
    requires p > 0 && x < p * q
    ensures x / p < q
  {
    MulMono(p, q, x / p);
    assert x == p * (x / p) + x % p;
  }
}
