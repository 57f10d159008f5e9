/** Small facts about products and quotients of reals, kept apart so that each is proved once and alone. */
module RealArithmetic {

  lemma NonNegativeProduct(x: real, y: real)
    requires x >= 0.0 && y >= 0.0
    ensures x * y >= 0.0
  {
  }

  lemma PositiveProduct(x: real, y: real)
    requires x > 0.0 && y > 0.0
    ensures x * y > 0.0
  {
  }

  lemma Scaled(a: real, b: real, c: real)
    requires a <= b && c >= 0.0
    ensures a * c <= b * c
  {
  }

  lemma StrictlyScaled(a: real, b: real, c: real)
    requires a < b && c > 0.0
    ensures a * c < b * c
  {
  }

  lemma DifferenceOfSquares(x: real, y: real)
    ensures (x - y) * (x + y) == x * x - y * y
  {
  }

  lemma SquaresOrder(x: real, y: real)
    requires x >= 0.0 && y >= 0.0
    ensures x > y <==> x * x > y * y
  {
    if x > y {
      PositiveProduct(x - y, x + y);
      DifferenceOfSquares(x, y);
    } else {
      NonNegativeProduct(y - x, x + y);
      DifferenceOfSquares(y, x);
    }
  }

  // ----- Quotients -----

  /** Comparing a quotient means comparing the numerator with the scaled bound. */
  lemma Ratio(x: real, y: real, t: real)
    requires y > 0.0
    ensures x / y >= t <==> x >= t * y
    ensures x / y > t <==> x > t * y
  {
    RatioOf(x / y, x, y, t);
  }

  lemma RatioOf(q: real, x: real, y: real, t: real)
    requires y > 0.0 && q * y == x
    ensures q >= t <==> x >= t * y
    ensures q > t <==> x > t * y
  {
    if q > t {
      StrictlyScaled(t, q, y);
    } else if q < t {
      StrictlyScaled(q, t, y);
    }
  }

  lemma Divided(a: real, b: real, w: real)
    requires b > 0.0 && w * b == a
    ensures a / b == w
  {
  }

  lemma QuotientAdds(x: real, y: real, t: real)
    requires t != 0.0
    ensures (x + y) / t == x / t + y / t
  {
  }

  lemma QuotientSubtracts(x: real, y: real, t: real)
    requires t != 0.0
    ensures (x - y) / t == x / t - y / t
  {
  }

  lemma QuotientNegates(x: real, t: real)
    requires t != 0.0
    ensures (-x) / t == -(x / t)
  {
  }

  lemma QuotientOrder(x: real, y: real, t: real)
    requires x <= y && t > 0.0
    ensures x / t <= y / t
  {
    QuotientSubtracts(y, x, t);
    Ratio(y - x, t, 0.0);
  }
}
