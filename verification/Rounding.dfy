/** Half-even rounding of an exact fraction, as decimal quantize does it. */
module Rounding {

  function HalfEven(n: nat, d: nat): (q: nat)
    requires d > 0
  {
    var q, r := n / d, n % d;
    if 2 * r < d then q
    else if 2 * r > d then q + 1
    else if q % 2 == 0 then q
    else q + 1
  }

  /** The result is a nearest multiple, and of two equally near ones the even one. */
  lemma HalfEvenIsNearest(n: nat, d: nat)
    requires d > 0
    ensures
      var gap := 2 * n - 2 * (HalfEven(n, d) * d);
      && 0 <= gap + d && gap <= d
      && (gap == d || gap + d == 0 ==> HalfEven(n, d) % 2 == 0)
  {
    var q := n / d;
    assert n == q * d + n % d;
    assert (q + 1) * d == q * d + d;
  }

  lemma MulLe(a: int, b: int, d: int)
    requires a <= b && d >= 0
    ensures a * d <= b * d
  {
  }

  lemma MultipleBelow(x: int, d: int)
    requires 0 < x * d + d && x * d < d
    ensures x == 0
  {
    if x >= 1 {
      MulLe(1, x, d);
    } else if x <= -1 {
      MulLe(x, -1, d);
    }
  }

  /** Rounding to a nearest multiple, ties to even, keeps the order; pd and qd stand for the two rounded values. */
  lemma NearestMonotone(m: int, n: int, d: int, p: int, pd: int, q: int, qd: int)
    requires d > 0 && m <= n && pd == p * d && qd == q * d
    requires 0 <= 2 * m - 2 * pd + d && 2 * n - 2 * qd <= d
    requires 2 * m - 2 * pd + d == 0 ==> p % 2 == 0
    requires 2 * n - 2 * qd == d ==> q % 2 == 0
    ensures p <= q
  {
    if p > q {
      MulLe(q + 1, p, d);
      assert (q + 1) * d == qd + d;
      assert pd == qd + d;
      assert (p - q - 1) * d == pd - qd - d;
      MultipleBelow(p - q - 1, d);
      assert false;
    }
  }

  lemma HalfEvenMonotone(m: nat, n: nat, d: nat)
    requires d > 0 && m <= n
    ensures HalfEven(m, d) <= HalfEven(n, d)
  {
    HalfEvenIsNearest(m, d);
    HalfEvenIsNearest(n, d);
    var p, q := HalfEven(m, d), HalfEven(n, d);
    NearestMonotone(m, n, d, p, p * d, q, q * d);
  }

  lemma HalfEvenOfMultiple(q: nat, d: nat)
    requires d > 0
    ensures HalfEven(q * d, d) == q
  {
    var k := (q * d) / d;
    assert q * d == k * d + (q * d) % d;
    assert (q - k) * d == q * d - k * d;
    MultipleBelow(q - k, d);
  }
}
