/** Facts about products and quotients of integers that the solver does not find on its own. */
module Arithmetic {

  lemma MulMonotonic(i: int, j: int, step: int)
    requires i <= j && 0 <= step
    ensures i * step <= j * step && step * i <= step * j
  {
  }

  lemma MulIncreases(i: int, j: int, step: int)
    requires i < j && 0 < step
    ensures i * step < j * step
  {
  }

  lemma DivideUnique(n: int, d: int, q: int, r: int)
    requires 0 < d && 0 <= r < d
    requires n == q * d + r
    ensures n / d == q && n % d == r
  {
    var q', r' := n / d, n % d;
    assert n == q' * d + r' && 0 <= r' < d;
    if q < q' {
      MulMonotonic(q + 1, q', d);
    } else if q' < q {
      MulMonotonic(q' + 1, q, d);
    }
  }

  lemma WholePartsDivideOut(k: int, rest: int, d: int)
    requires 0 < d
    ensures (k * d + rest) / d == k + rest / d
  {
    var whole := rest / d;
    assert (k + whole) * d == k * d + whole * d;
    DivideUnique(k * d + rest, d, k + whole, rest % d);
  }

  lemma QuotientAtMost(n: int, q: int, d: int)
    requires 0 < d && 0 <= n < (q + 1) * d
    ensures 0 <= n / d <= q
  {
    var k := n / d;
    if k >= q + 1 { MulMonotonic(q + 1, k, d); }
  }

  lemma QuotientMonotonic(m: int, n: int, d: int)
    requires 0 < d && m <= n
    ensures m / d <= n / d
  {
    var q := n / d;
    assert (q + 1) * d == q * d + d;
    if m / d >= q + 1 { MulMonotonic(q + 1, m / d, d); }
  }
}
