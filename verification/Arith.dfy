/** Division facts the solver does not find by itself. */
module Arith {

  lemma MulAtLeast(x: int, m: nat)
    requires x >= 1
    ensures x * m >= m
  {
    assert x * m == (x - 1) * m + m;
    assert (x - 1) * m >= 0;
  }

  /** Quotient and remainder are unique. */
  lemma DivModUnique(a: nat, m: nat, q: nat, r: nat)
    requires m > 0 && a == q * m + r && r < m
    ensures a / m == q && a % m == r
  {
    var p := a / m;
    assert a == p * m + a % m;
    assert (p - q) * m == p * m - q * m && (q - p) * m == q * m - p * m;
    if p > q {
      MulAtLeast(p - q, m);
    } else if q > p {
      MulAtLeast(q - p, m);
    }
  }

  lemma Substitute(q: nat, n: nat, k: nat, m: nat)
    requires n == k * m
    ensures q * n == q * k * m
  {
  }

  /** A remainder modulo a multiple keeps the remainder modulo the factor. */
  lemma ModOfMod(a: nat, n: nat, k: nat, m: nat)
    requires n > 0 && m > 0 && n == k * m
    ensures (a % n) % m == a % m
  {
    var q, r := a / n, a % n;
    var s, t := r / m, r % m;
    TwoSteps(a, n, k, m, q, r, s, t);
    DivModUnique(a, m, q * k + s, t);
  }

  lemma TwoSteps(a: nat, n: nat, k: nat, m: nat, q: nat, r: nat, s: nat, t: nat)
    requires a == q * n + r && r == s * m + t && n == k * m
    ensures a == (q * k + s) * m + t
  {
    Substitute(q, n, k, m);
    assert (q * k + s) * m == q * k * m + s * m;
  }

  lemma DigitThenRest(a: nat, k: nat, m: nat, h: nat, r: nat, p: nat, d: nat)
    requires a == h * m + r && r < m && h == p * k + d && d < k
    ensures k * m > 0 && a % (k * m) == d * m + r && a / (k * m) == p
  {
    MulAtLeast(m, k);
    Distribute(p, k, d, m);
    BelowProduct(d, k, r, m);
    DivModUnique(a, k * m, p, d * m + r);
  }

  lemma Distribute(p: nat, k: nat, d: nat, m: nat)
    ensures (p * k + d) * m == p * (k * m) + d * m
  {
  }

  lemma BelowProduct(d: nat, k: nat, r: nat, m: nat)
    requires d < k && r < m
    ensures d * m + r < k * m
  {
    MulAtLeast(k - d, m);
    assert (k - d) * m == k * m - d * m;
  }

  /** The top digit of a remainder, and what is left below it. */
  lemma ModSplit(a: nat, k: nat, m: nat)
    requires k > 0 && m > 0
    ensures k * m > 0 && (a / m) % k < k && a % (k * m) == ((a / m) % k) * m + a % m
  {
    var h := a / m;
    DigitThenRest(a, k, m, h, a % m, h / k, h % k);
  }

  lemma DivDiv(a: nat, m: nat, n: nat)
    requires m > 0 && n > 0
    ensures n * m > 0 && a / m / n == a / (n * m)
  {
    var h := a / m;
    DigitThenRest(a, n, m, h, a % m, h / n, h % n);
  }
}
