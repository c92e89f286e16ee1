/** Facts about Euclidean division by a positive number that the solver does
    not find by itself. */
module Arithmetic {

  lemma MulSign(n: int, d: int)
    requires n > 0
    ensures d >= 1 ==> n * d >= n
    ensures d <= -1 ==> n * d <= -n
    ensures d == 0 ==> n * d == 0
  {
  }

  /** Quotient and remainder are determined by x == q * n + r with 0 <= r < n. */
  lemma DivModUnique(x: int, n: int, q: int, r: int)
    requires n > 0 && 0 <= r < n && x == q * n + r
    ensures x / n == q && x % n == r
  {
    var q', r' := x / n, x % n;
    assert n * (q - q') == r' - r;
    MulSign(n, q - q');
  }

  /** Adding a multiple of n shifts the quotient and keeps the remainder. */
  lemma DivAddMultiple(x: int, n: int, k: int)
    requires n > 0
    ensures (x + k * n) / n == x / n + k
    ensures (x + k * n) % n == x % n
  {
    DivModUnique(x + k * n, n, x / n + k, x % n);
  }

  /** A multiple of n strictly between two consecutive multiples does not exist. */
  lemma NoMultipleBetween(c: int, n: int, q: int)
    requires n > 0 && q * n < c < (q + 1) * n
    ensures c % n != 0
  {
    if c % n == 0 {
      var k := c / n;
      assert c == k * n;
      assert n * (k - q) > 0 && n * (k - q) < n;
      MulSign(n, k - q);
    }
  }
}
