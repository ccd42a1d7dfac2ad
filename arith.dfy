/**
 * Sign and order facts about products of reals, which the solver does not
 * find unaided once they sit inside larger proofs.
 */
module RealArith {

  lemma MulPositive(x: real, y: real)
    requires 0.0 < x && 0.0 < y
    ensures 0.0 < x * y
  {
  }

  lemma MulNonNegative(x: real, y: real)
    requires 0.0 <= x && 0.0 <= y
    ensures 0.0 <= x * y
  {
  }

  lemma SquareNonNegative(x: real)
    ensures 0.0 <= x * x
  {
    if x < 0.0 {
      MulPositive(-x, -x);
    } else {
      MulNonNegative(x, x);
    }
  }

  /** 0 <= a < b implies a * a < b * b. */
  lemma SquareMonotone(a: real, b: real)
    requires 0.0 <= a < b
    ensures a * a < b * b
  {
    MulPositive(b - a, b + a);
  }

  /** 0 <= a <= b implies a * a <= b * b. */
  lemma SquareMonotoneWeak(a: real, b: real)
    requires 0.0 <= a <= b
    ensures a * a <= b * b
  {
    if a < b {
      SquareMonotone(a, b);
    }
  }
}
