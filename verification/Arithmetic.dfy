/** Division by constants, digit by digit. */
module Arithmetic {

  lemma Multiples(d: nat, p: int, q: int)
    requires 0 < d
    ensures p < q ==> d * p + d <= d * q
  {
    if p < q {
      assert d * (p + 1) <= d * q;
    }
  }

  lemma Unique(x: int, d: nat, q: int, r: nat)
    requires 0 < d && r < d && x == d * q + r
    ensures x / d == q && x % d == r
  {
    Multiples(d, x / d, q);
    Multiples(d, q, x / d);
    assert x == d * (x / d) + x % d;
  }

  lemma Spread(d: int, e: int, q: int, r: int)
    ensures d * (e * q + r) == (d * e) * q + d * r
  {
  }

  lemma Room(d: nat, e: nat, r: nat, t: nat)
    requires r < e && t < d
    ensures d * r + t < d * e && 0 < d * e
  {
    Multiples(d, r, e);
  }

  /** Dividing in two steps. */
  lemma DivTwice(x: int, d: nat, e: nat)
    requires 0 < d && 0 < e
    ensures 0 < d * e && x / d / e == x / (d * e)
  {
    var q, r, t := x / d / e, x / d % e, x % d;
    assert x / d == e * q + r;
    assert x == d * (e * q + r) + t == (d * e) * q + (d * r + t) by { Spread(d, e, q, r); }
    Room(d, e, r, t);
    Unique(x, d * e, q, d * r + t);
  }

  /** One digit group of a number. */
  lemma Digits(x: int, d: nat, e: nat)
    requires 0 < d && 0 < e
    ensures 0 < d * e && x / d == x / (d * e) * e + x / d % e
  {
    DivTwice(x, d, e);
  }
}
