/** The few facts about products and quotients that the solver needs spelled out. */
module Arithmetic {

  lemma {:induction false} MulOrder(p: nat, a: int, b: int)
    requires a <= b
    ensures p * a <= p * b
  {
  }

  /** A quotient and a remainder in range are the only ones. */
  lemma {:induction false} DivModUnique(v: int, m: int, q: int, r: int)
    requires m > 0 && v == q * m + r && 0 <= r < m
    ensures v / m == q && v % m == r
  {
    var d := v / m - q;
    assert d * m == r - v % m;
    if d >= 1 {
      MulOrder(m, 1, d);
    } else if d <= -1 {
      MulOrder(m, d, -1);
    }
  }

  lemma {:induction false} DivMod(x: int, b: nat)
    requires b > 0
    ensures x == (x / b) * b + x % b && 0 <= x % b < b
  {
  }

  lemma {:induction false} DivSmaller(x: nat, b: nat)
    requires x > 0 && b > 1
    ensures 0 <= x / b < x
  {
    var q := x / b;
    assert x == q * b + x % b;
    if q >= 1 {
      MulOrder(q, 2, b);
    } else if q <= -1 {
      MulOrder(b, q, -1);
    }
  }
}
