/** Facts about Euclidean division by a positive divisor, used for the
    percentage and bar-width arithmetic of the apps. */
module Arith {

  lemma MulAtLeast(n: int, d: int)
    requires 0 < n && 1 <= d
    ensures n * d >= n
  {
    assert n * d == n * (d - 1) + n;
    assert n * (d - 1) >= 0;
  }

  lemma MulAtMost(n: int, d: int)
    requires 0 < n && d <= -1
    ensures n * d <= -n
  {
    assert n * d == n * (d + 1) - n;
    assert n * (d + 1) <= 0;
  }

  /** A multiple of n strictly between -n and n is zero. */
  lemma MulSmall(n: int, d: int)
    requires 0 < n && -n < n * d < n
    ensures d == 0
  {
    if d >= 1 {
      MulAtLeast(n, d);
    } else if d <= -1 {
      MulAtMost(n, d);
    }
  }

  /** Quotient and remainder are the unique such pair. */
  lemma DivUnique(x: int, n: int, q: int, r: int)
    requires 0 < n && 0 <= r < n && x == n * q + r
    ensures x / n == q && x % n == r
  {
    var q', r' := x / n, x % n;
    assert n * q' + r' == x;
    assert n * (q - q') == r' - r;
    MulSmall(n, q - q');
  }

  lemma DivMonotone(x: int, y: int, n: int)
    requires 0 <= x <= y && 0 < n
    ensures x / n <= y / n
  {
    var d := y / n - x / n;
    assert n * d + (y % n - x % n) == y - x;
    if d < 0 {
      MulAtMost(n, d);
    }
  }

  lemma DivAddDivisor(x: int, n: int)
    requires 0 <= x && 0 < n
    ensures (x + n) / n == x / n + 1
  {
    DivUnique(x + n, n, x / n + 1, x % n);
  }

  lemma DivOfMultiple(k: int, n: int)
    requires 0 <= k && 0 < n
    ensures (n * k) / n == k
  {
    DivUnique(n * k, n, k, 0);
  }
}
