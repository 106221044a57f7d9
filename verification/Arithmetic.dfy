/** Powers of two, and division by a positive number. */
module Arithmetic {

  function Pow2(n: nat): (p: nat)
    ensures p > 0
  {
    if n == 0 then 1 else 2 * Pow2(n - 1)
  }

  lemma HalvedRemainder(x: nat, p: nat)
    requires p > 0
    ensures x % (2 * p) == 2 * (x / 2 % p) + x % 2
  {
    var h := x / 2;
    var q := h / p;
    var r := 2 * (h % p) + x % 2;
    assert h == q * p + h % p;
    assert x == (2 * p) * q + r;
    QuotientIs(x, 2 * p, q, r);
  }

  /** A non-zero multiple of `d` is at least `d` away from zero. */
  lemma MultipleIsFar(d: int, k: int)
    requires d > 0
    ensures k >= 1 ==> d * k >= d
    ensures k <= -1 ==> d * k <= -d
  {
    assert d * k == d + d * (k - 1) == d * (k + 1) - d;
  }

  lemma QuotientIs(x: int, d: int, q: int, r: int)
    requires d > 0 && 0 <= r < d && x == d * q + r
    ensures x / d == q && x % d == r
  {
    var q', r' := x / d, x % d;
    assert x == d * q' + r';
    assert d * q == d * q' + d * (q - q');
    MultipleIsFar(d, q - q');
  }

  lemma QuotientBounds(x: nat, p: nat)
    requires p > 0
    ensures 0 <= x / p <= x
  {
    var q := x / p;
    assert x == p * q + x % p;
    MultipleIsFar(p, q);
    if q > 0 { MultipleIsFar(q, p); }
  }
}
