/** The few facts of non-linear arithmetic that the rest of the project uses. */
module Arith {

  lemma MulDistributes(a: int, b: int, n: int)
    ensures (a + b) * n == a * n + b * n
    ensures (a - b) * n == a * n - b * n
  {
  }

  lemma MulMonotone(a: int, b: int, n: nat)
    requires a <= b
    ensures a * n <= b * n
  {
    MulDistributes(b, a, n);
    assert (b - a) * n >= 0;
  }

  lemma DivMod(k: int, n: int)
    requires n > 0
    ensures k == (k / n) * n + k % n && 0 <= k % n < n
  {
  }

  /** Quotient and remainder are unique. */
  lemma DivModUnique(k: int, q: int, r: int, n: int)
    requires 0 <= r < n && k == q * n + r
    ensures k / n == q && k % n == r
  {
    var q', r' := k / n, k % n;
    DivMod(k, n);
    if q' < q {
      MulMonotone(q' + 1, q, n);
      MulDistributes(q', 1, n);
    } else if q < q' {
      MulMonotone(q + 1, q', n);
      MulDistributes(q, 1, n);
    }
  }
}
