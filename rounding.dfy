/**
 * Python's built-in `round` on an exact rational value: the nearest integer,
 * and on an exact tie the even neighbour ("banker's rounding").
 */
module Rounding {

  type Pos = n: int | n > 0 witness 1

  /** `q` is a nearest integer to `n / d`, and on a tie it is the even one. */
  predicate NearestTiesEven(n: int, d: Pos, q: int)
  {
    && 2 * (n - d * q) <= d
    && 2 * (d * q - n) <= d
    && (2 * (n - d * q) == d || 2 * (d * q - n) == d ==> q % 2 == 0)
  }

  /** round(n / d) as Python computes it for an exactly represented value. */
  function RoundHalfEven(n: int, d: Pos): (q: int)
    ensures NearestTiesEven(n, d, q)
  {
    var f := n / d;
    var r := n % d;
    assert n == d * f + r && 0 <= r < d;
    assert d * (f + 1) == d * f + d;
    if 2 * r < d then f
    else if 2 * r > d then f + 1
    else if f % 2 == 0 then f
    else f + 1
  }

  /** The characterisation is exact: only one integer is nearest with ties to even. */
  lemma RoundHalfEvenUnique(n: int, d: Pos, q: int)
    requires NearestTiesEven(n, d, q)
    ensures q == RoundHalfEven(n, d)
  {
    var p := RoundHalfEven(n, d);
    var a, b := d * q, d * p;
    assert b - a <= d && a - b <= d;
    assert d * (p - q) == b - a && d * (q - p) == a - b;
    LeFromMul(d, p - q, 1);
    LeFromMul(d, q - p, 1);
    assert p == q + 1 ==> b == a + d;
    assert q == p + 1 ==> a == b + d;
    assert p == q ==> a == b;
  }

  /** Rounding stays within integer bounds that enclose `n / d`. */
  lemma RoundWithin(n: int, d: Pos, lo: int, hi: int)
    requires lo * d <= n <= hi * d
    ensures lo <= RoundHalfEven(n, d) <= hi
  {
    var q := RoundHalfEven(n, d);
    assert d * (2 * lo - 1) == 2 * (lo * d) - d;
    assert d * (2 * hi + 1) == 2 * (hi * d) + d;
    assert d * (2 * q) == 2 * (d * q);
    LeFromMul(d, 2 * lo - 1, 2 * q);
    LeFromMul(d, 2 * q, 2 * hi + 1);
  }

  lemma LeFromMul(d: Pos, a: int, b: int)
    requires d * a <= d * b
    ensures a <= b
  {
    assert d * b - d * a == d * (b - a);
  }
}
