/** The few facts about products and quotients the other modules need. */
module Arith {

  lemma MulMono(a: int, x: int, y: int)
    requires 0 <= a && x <= y
    ensures a * x <= a * y
  {
  }

  lemma MulAtLeast(a: int, b: int)
    requires a >= 1 && b >= 1
    ensures a * b >= a && a * b >= b
  {
  }

  /** A factor of a positive product, the other factor being positive, is positive. */
  lemma FactorPositive(a: int, b: int)
    requires a >= 1 && a * b >= 1
    ensures b >= 1
  {
  }

  lemma MulCancel(x: int, y: int, q: int)
    requires q > 0 && x * q == y * q
    ensures x == y
  {
  }

  lemma MulAssoc(a: int, b: int, c: int)
    ensures (a * b) * c == a * (b * c)
  {
  }

  lemma MulDistribute(a: int, b: int, c: int)
    ensures (a + b) * c == a * c + b * c
  {
  }

  lemma MulLeCancel(a: int, x: int, y: int)
    requires a >= 1 && a * x <= a * y
    ensures x <= y
  {
  }

  lemma DivBack(n: int, r: int)
    requires n >= 1 && r % n == 0
    ensures r == n * (r / n)
  {
  }

  lemma DivExact(n: int, m: int, g: int)
    requires m >= 1 && n == m * g
    ensures n / m == g && n % m == 0
  {
    var q, r := n / m, n % m;
    assert n == m * q + r;
    assert m * (g - q) == r;
    assert g == q by {
      FactorBounds(m, g - q);
    }
  }

  lemma FactorBounds(m: int, d: int)
    requires m >= 1 && 0 <= m * d < m
    ensures d == 0
  {
  }
}
