/** Quotient and remainder by a divisor that is not a literal. */
module DivMod {

  lemma MulAtLeast(k: int, d: nat)
    ensures k > 0 ==> k * d >= d
  {
  }

  lemma Unique(a: nat, n: nat, q: nat, r: nat)
    requires r < n && a == q * n + r
    ensures a / n == q && a % n == r
  {
    var q' := a / n;
    MulAtLeast(q' - q, n);
    MulAtLeast(q - q', n);
    assert q' * n - q * n == (q' - q) * n;
  }

  /** Adding the divisor adds one to the quotient. */
  lemma Step(a: nat, n: nat)
    requires n > 0
    ensures (a + n) / n == a / n + 1
    ensures (a + n) % n == a % n
  {
    assert a + n == (a / n + 1) * n + a % n;
    Unique(a + n, n, a / n + 1, a % n);
  }

  lemma Small(a: nat, n: nat)
    requires a < n
    ensures a / n == 0 && a % n == a
  {
    Unique(a, n, 0, a);
  }
}
