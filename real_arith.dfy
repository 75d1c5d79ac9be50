/** Sign facts about products of reals that the solver needs spelt out. */
module RealArith {

  lemma MulNonNegative(x: real, y: real)
    requires x >= 0.0 && y >= 0.0
    ensures x * y >= 0.0
  {
  }

  lemma MulPositive(x: real, y: real)
    requires x > 0.0 && y > 0.0
    ensures x * y > 0.0
  {
  }

  /** For a ratio `x = s / m` with positive `m`: `x > c` exactly when `s > c * m`. */
  lemma RatioAbove(x: real, m: real, s: real, c: real)
    requires m > 0.0 && x * m == s
    ensures x > c <==> s > c * m
  {
    var d := x - c;
    assert d * m == x * m - c * m;
    assert s - c * m == d * m;
    if d > 0.0 {
      MulPositive(d, m);
      assert s > c * m;
    } else {
      MulNonNegative(-d, m);
      assert (-d) * m == -(d * m);
      assert s <= c * m;
    }
  }
}
