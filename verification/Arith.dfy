/** Division and remainder by a positive number. */
module Arith {

  lemma MulAtLeast(d: int, k: int)
    requires d > 0
    ensures k >= 1 ==> d * k >= d
    ensures k <= -1 ==> d * k <= -d
  {
    if k >= 1 {
      assert d * k == d * (k - 1) + d && d * (k - 1) >= 0;
    } else if k <= -1 {
      assert d * k == d * (k + 1) - d && d * (k + 1) <= 0;
    }
  }

  lemma DivUnique(x: int, d: int, q: int, r: int)
    requires d > 0 && x == d * q + r && 0 <= r < d
    ensures x / d == q && x % d == r
  {
    var q', r' := x / d, x % d;
    assert x == d * q' + r' && 0 <= r' < d;
    assert d * (q - q') == d * q - d * q';
    MulAtLeast(d, q - q');
  }

  lemma DivStep(x: int, d: int)
    requires d > 0
    ensures (x - d) / d == x / d - 1 && (x - d) % d == x % d
  {
    var q, r := x / d, x % d;
    assert x - d == d * (q - 1) + r;
    DivUnique(x - d, d, q - 1, r);
  }

  lemma DivSmall(x: int, d: int)
    requires 0 <= x < d
    ensures x / d == 0 && x % d == x
  {
    DivUnique(x, d, 0, x);
  }

  /** Adding a multiple of d does not change the remainder. */
  lemma ModPlusMultiple(x: int, d: int, k: int)
    requires d > 0
    ensures (x + d * k) % d == x % d
  {
    var q, r := x / d, x % d;
    assert d * (q + k) == d * q + d * k;
    DivUnique(x + d * k, d, q + k, r);
  }

  /** A sum may be reduced before or after the addition. */
  lemma ModAdd(x: int, y: int, d: int)
    requires d > 0
    ensures (x % d + y) % d == (x + y) % d
  {
    var q := x / d;
    assert x + y == (x % d + y) + d * q;
    ModPlusMultiple(x % d + y, d, q);
  }
}
