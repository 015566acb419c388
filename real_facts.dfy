/** Facts about real division that the solver does not find on its own. */
module RealFacts {

  lemma MulDivCancel(a: real, b: real)
    requires b != 0.0
    ensures a * b / b == a
  {
  }

  lemma DivBetweenZeroAndOne(a: real, d: real)
    requires 0.0 <= a <= d && d > 0.0
    ensures 0.0 <= a / d <= 1.0
  {
    assert a / d * d == a;
  }

  lemma DivMonotone(a: real, b: real, d: real)
    requires a <= b && d > 0.0
    ensures a / d <= b / d
  {
    assert (b / d - a / d) * d == b - a;
  }

  lemma DivStrictMonotone(a: real, b: real, d: real)
    requires a < b && d > 0.0
    ensures a / d < b / d
  {
    assert (b / d - a / d) * d == b - a;
  }

  lemma ReciprocalAntitone(d1: real, d2: real)
    requires 0.0 < d1 < d2
    ensures 1.0 / d2 < 1.0 / d1
  {
    assert (1.0 / d1 - 1.0 / d2) * (d1 * d2) == d2 - d1;
  }

  lemma SquareNonNegative(x: real)
    ensures x * x >= 0.0
  {
    if x < 0.0 {
      assert x * x == (-x) * (-x);
    }
  }
}
