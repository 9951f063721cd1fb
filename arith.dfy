/** Small facts about real multiplication and division that the solver needs spelled out. */
module Arith {

  lemma PositiveFactor(x: real, m: real)
    requires m > 0.0 && x * m > 0.0
    ensures x > 0.0
  {
  }

  lemma NonNegativeFactor(x: real, m: real)
    requires m > 0.0 && x * m >= 0.0
    ensures x >= 0.0
  {
  }

  lemma PositiveProduct(x: real, y: real)
    requires x > 0.0 && y > 0.0
    ensures x * y > 0.0
  {
  }

  lemma PositiveReciprocal(x: real)
    requires x > 0.0
    ensures 1.0 / x > 0.0
  {
  }

  lemma MulMonotone(b: real, x: real, y: real)
    requires b > 0.0 && x >= y
    ensures b * x >= b * y
  {
    assert b * x - b * y == b * (x - y);
  }

  /** For positive x <= y, 1/x >= 1/y. */
  lemma ReciprocalAntitone(x: real, y: real)
    requires 0.0 < x <= y
    ensures 1.0 / x >= 1.0 / y
  {
    var p, q := 1.0 / x, 1.0 / y;
    assert p * x == 1.0;
    assert q * y == 1.0;
    assert q > 0.0;
    assert q * x <= q * y;
    assert (p - q) * x == 1.0 - q * x;
    NonNegativeFactor(p - q, x);
  }

  /** Products of ordered positive factors are ordered. */
  lemma ProductMonotone(a1: real, a2: real, b1: real, b2: real)
    requires a1 >= a2 > 0.0 && b1 >= b2 > 0.0
    ensures a1 * b1 >= a2 * b2
  {
    MulMonotone(a1, b1, b2);
    MulMonotone(b2, a1, a2);
  }

  /** Scaling an amount that is a multiple of m by f gives the same multiple of mf = m * f. */
  lemma Rescale(amount: real, initial: real, m: real, f: real, mf: real)
    requires amount == initial * m && mf == m * f
    ensures amount * f == initial * mf
  {
  }

  /** Dividing an amount that is a multiple of m by d gives the same multiple of m * (1 / d). */
  lemma DivideRescale(amount: real, initial: real, m: real, d: real)
    requires d != 0.0 && amount == initial * m
    ensures amount / d == initial * (m * (1.0 / d))
  {
  }

  lemma Unscale(amount: real, initial: real, m: real)
    requires initial != 0.0 && amount == initial * m
    ensures amount / initial == m
  {
  }

  lemma BelowOne(bid: real, ask: real)
    requires 0.0 < bid < ask
    ensures bid / ask < 1.0
  {
    var r := bid / ask;
    assert r * ask == bid;
    assert (1.0 - r) * ask == ask - bid;
    PositiveFactor(1.0 - r, ask);
  }
}
