/**
 Python's round over exact reals: to the nearest multiple of 1/scale, ties to the even one.
 `Exact` switches rounding off, so one state machine can be studied both as the code runs it
 and in exact arithmetic.
*/
module Rounding {
  import opened RealArithmetic

  datatype Arithmetic = Exact | Decimal

  function RoundHalfEven(x: real): (r: int)
    ensures x - 0.5 <= r as real <= x + 0.5
  {
    var below := x.Floor;
    var rest := x - below as real;
    if rest < 0.5 then below
    else if rest > 0.5 then below + 1
    else if below % 2 == 0 then below
    else below + 1
  }

  function RoundAt(x: real, scale: real): real
    requires scale > 0.0
  {
    RoundHalfEven(x * scale) as real / scale
  }

  function Round(arith: Arithmetic, x: real, scale: real): real
    requires scale > 0.0
  {
    if arith.Exact? then x else RoundAt(x, scale)
  }

  /** Scores are kept to three decimals, so one rounding moves a value by at most this much. */
  function HalfUnit(arith: Arithmetic): real {
    if arith.Exact? then 0.0 else 0.0005
  }

  lemma NearestIntegerMonotone(x: real, y: real)
    requires x <= y
    ensures RoundHalfEven(x) <= RoundHalfEven(y)
  {
    if x.Floor == y.Floor {
    } else {
      assert x.Floor + 1 <= y.Floor;
    }
  }

  lemma NearestIntegerOdd(x: real)
    ensures RoundHalfEven(-x) == -RoundHalfEven(x)
  {
    var f := x.Floor;
    if x == f as real {
      assert (-x).Floor == -f;
    } else {
      assert (-x).Floor == -f - 1;
    }
  }

  /** The nearest whole number, and of two equally near ones the even one. */
  lemma NearestIntegerExactly(x: real, k: int)
    ensures RoundHalfEven(x) == k <==>
              x - 0.5 <= k as real <= x + 0.5 && (k as real == x - 0.5 || k as real == x + 0.5 ==> k % 2 == 0)
  {
    var f := x.Floor;
    assert k < f || k == f || k == f + 1 || k > f + 1;
  }

  /** r is a whole number of units of 1/scale, none is nearer to x, and of two equally near ones it is the even one. */
  predicate IsNearest(r: real, x: real, scale: real) {
    var k := (r * scale).Floor;
    && k as real == r * scale
    && x * scale - 0.5 <= k as real <= x * scale + 0.5
    && (k as real == x * scale - 0.5 || k as real == x * scale + 0.5 ==> k % 2 == 0)
  }

  lemma RoundExactly(x: real, r: real, scale: real)
    requires scale > 0.0
    ensures Round(Decimal, x, scale) == r <==> IsNearest(r, x, scale)
  {
    var k, f := RoundHalfEven(x * scale), (r * scale).Floor;
    NearestIntegerExactly(x * scale, k);
    NearestIntegerExactly(x * scale, f);
    var q := k as real / scale;
    assert q * scale == k as real;
    if r * scale == k as real {
      Divided(k as real, scale, r);
    }
  }

  /** Rounding to a fixed number of decimals is odd, for every value: no bias between the sides. */
  lemma RoundOdd(arith: Arithmetic, x: real, scale: real)
    requires scale > 0.0
    ensures Round(arith, -x, scale) == -Round(arith, x, scale)
  {
    NearestIntegerOdd(x * scale);
    assert (-x) * scale == -(x * scale);
  }

  lemma RoundMonotone(arith: Arithmetic, x: real, y: real, scale: real)
    requires scale > 0.0 && x <= y
    ensures Round(arith, x, scale) <= Round(arith, y, scale)
  {
    if arith == Decimal {
      Scaled(x, y, scale);
      NearestIntegerMonotone(x * scale, y * scale);
      var p, q := RoundHalfEven(x * scale), RoundHalfEven(y * scale);
      QuotientOrder(p as real, q as real, scale);
      assert RoundAt(x, scale) == p as real / scale && RoundAt(y, scale) == q as real / scale;
    }
  }

  /** Three-decimal rounding moves a value by at most half a thousandth. */
  lemma RoundThousandthsError(arith: Arithmetic, x: real)
    ensures x - HalfUnit(arith) <= Round(arith, x, 1000.0) <= x + HalfUnit(arith)
  {
  }

  /** x is a whole number of hundredths, as every score handed to the state machine is. */
  predicate Hundredths(x: real) {
    (x * 100.0).Floor as real == x * 100.0
  }

  lemma HundredthsAreFixed(arith: Arithmetic, x: real)
    requires Hundredths(x)
    ensures Round(arith, x, 1000.0) == x
  {
    var h := (x * 100.0).Floor;
    assert x * 1000.0 == (10 * h) as real;
    assert (x * 1000.0).Floor == 10 * h;
  }
}
