/** Small facts about real multiplication and division that the geometry proofs use step by step. */
module RealFacts {

  /** Cancelling a non-zero factor. */
  lemma MulCancel(a: real, b: real, k: real)
    requires k != 0.0 && a * k == b * k
    ensures a == b
  {
    assert (a - b) * k == 0.0;
  }

  /** (a / d) * d == a */
  lemma DivMulBack(a: real, d: real)
    requires d != 0.0
    ensures (a / d) * d == a
  {
  }

  /** p == q * d with d non-zero gives p / d == q. */
  lemma QuotientOfProduct(q: real, d: real, p: real)
    requires d != 0.0 && p == q * d
    ensures p / d == q
  {
  }

  /** The sign of a quotient by a positive number, and its complement to 1. */
  lemma QuotientSigns(a: real, b: real)
    requires b > 0.0
    ensures a >= 0.0 ==> a / b >= 0.0
    ensures a > 0.0 ==> a / b > 0.0
    ensures 1.0 - a / b == (b - a) / b
  {
    ComplementQuotient(a, b, a / b);
  }

  /** q * b == a gives 1 - q == (b - a) / b. */
  lemma ComplementQuotient(a: real, b: real, q: real)
    requires b != 0.0 && q * b == a
    ensures 1.0 - q == (b - a) / b
  {
    assert b - a == (1.0 - q) * b;
    QuotientOfProduct(1.0 - q, b, b - a);
  }

  /** Squares are non-negative. */
  lemma SquareNonNegative(g: real)
    ensures g * g >= 0.0
  {
    if g < 0.0 {
      assert (-g) * (-g) >= 0.0;
    }
  }
}
