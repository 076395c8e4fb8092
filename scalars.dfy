/** Small facts about real multiplication and division, kept apart so that
    each nonlinear step is proved in a context of its own. */
module Scalars {

  function Min3(a: real, b: real, c: real): real {
    if a <= b && a <= c then a else if b <= c then b else c
  }

  /** The largest of three values (a row-wise maximum). */
  function Max3(a: real, b: real, c: real): real {
    if a >= b && a >= c then a else if b >= c then b else c
  }

  lemma MulDiv(x: real, a: real, b: real)
    requires b != 0.0
    ensures x * a / b == x * (a / b)
  {
  }

  lemma NonNegProduct(a: real, b: real)
    requires 0.0 <= a && 0.0 <= b
    ensures 0.0 <= a * b
  {
  }

  lemma MulMono(x: real, a: real, b: real)
    requires 0.0 <= x && a <= b
    ensures x * a <= x * b
  {
    NonNegProduct(x, b - a);
    assert x * (b - a) == x * b - x * a;
  }

  /** A fraction of a non-negative quantity lies between 0 and the quantity. */
  lemma ScaleByFraction(x: real, p: real)
    requires 0.0 <= x && 0.0 <= p <= 1.0
    ensures 0.0 <= x * p <= x
  {
    NonNegProduct(x, p);
    MulMono(x, p, 1.0);
  }

  lemma FractionBounds(a: real, b: real)
    requires 0.0 <= a <= b && b != 0.0
    ensures 0.0 <= a / b <= 1.0
  {
    assert b > 0.0;
  }

  lemma ProductOfFractions(p: real, q: real)
    requires 0.0 <= p <= 1.0 && 0.0 <= q <= 1.0
    ensures 0.0 <= p * q <= 1.0
  {
    NonNegProduct(p, q);
    NonNegProduct(p, 1.0 - q);
    assert p * (1.0 - q) == p - p * q;
  }
}
