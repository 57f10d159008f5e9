/**
 Re-estimating the sample a comparison needs: two decision rules on drawn win counts, the power
 each reaches over a fixed random stream, and the search for the smallest sample that is enough.

 Square roots do not occur: each rule is stated on squares, and proved to be the rule with roots
 for any numbers that square to the variances.
*/
module RequiredSample {
  import opened Common
  import opened RealArithmetic

  const Z95 := 1.959963984540054
  const CRITICAL := 1.6448536269514722
  const FLOOR := 0.000000000001

  // ----- Decision rules on counts -----

  function Rate(wins: nat, n: nat): real
    requires n > 0
  {
    wins as real / n as real
  }

  function Spread(p: real): real {
    p * (1.0 - p)
  }

  /** The square of the standard error of one rate. */
  function Variance(p: real, n: nat): real
    requires n > 0
  {
    Max(Spread(p), FLOOR) / n as real
  }

  /** The square of the pooled standard error of the difference of two rates. */
  function PooledVariance(pe: real, pb: real, n: nat): real
    requires n > 0
  {
    Max(2.0 * Spread((pe + pb) / 2.0) / n as real, FLOOR)
  }

  /** d > z (sqrt(a) + sqrt(b)), on squares. */
  predicate ExceedsSumOfRoots(d: real, z: real, a: real, b: real) {
    var rest := d * d - z * z * (a + b);
    d > 0.0 && rest > 0.0 && rest * rest > 4.0 * (z * z) * (z * z) * (a * b)
  }

  /** d / sqrt(a) > c, on squares. */
  predicate ExceedsRoot(d: real, c: real, a: real) {
    d > 0.0 && d * d > c * c * a
  }

  /** The two 95% intervals do not overlap. */
  predicate NonOverlap(we: nat, wb: nat, n: nat)
    requires n > 0
  {
    var pe, pb := Rate(we, n), Rate(wb, n);
    ExceedsSumOfRoots(pe - pb, Z95, Variance(pe, n), Variance(pb, n))
  }

  /** The one-sided two-proportion test at 5%. */
  predicate TwoProportion(we: nat, wb: nat, n: nat)
    requires n > 0
  {
    var pe, pb := Rate(we, n), Rate(wb, n);
    ExceedsRoot(pe - pb, CRITICAL, PooledVariance(pe, pb, n))
  }

  // ----- The rules are the ones with square roots -----

  lemma SumOfRootsRule(d: real, z: real, a: real, b: real, ra: real, rb: real)
    requires z > 0.0 && ra >= 0.0 && rb >= 0.0 && ra * ra == a && rb * rb == b
    ensures d > z * (ra + rb) <==> ExceedsSumOfRoots(d, z, a, b)
  {
    var s, q := z * (ra + rb), ra * rb;
    NonNegativeProduct(z, ra + rb);
    NonNegativeProduct(ra, rb);
    var zz := z * z;
    PositiveProduct(z, z);
    var t, rest := 2.0 * zz * q, d * d - zz * (a + b);
    NonNegativeProduct(zz, q);
    SquareOfSum(z, ra, rb, zz, a, b, q);
    ProductOfSquares(ra, rb, a, b, q);
    SquareOfTwice(zz, q, a * b);
    if d >= 0.0 {
      SquaresOrder(d, s);
    }
    if rest >= 0.0 {
      SquaresOrder(rest, t);
    }
  }

  lemma SquareOfSum(z: real, ra: real, rb: real, zz: real, a: real, b: real, q: real)
    requires zz == z * z && a == ra * ra && b == rb * rb && q == ra * rb
    ensures (z * (ra + rb)) * (z * (ra + rb)) == zz * (a + b) + 2.0 * zz * q
  {
    var s := ra + rb;
    assert s * s == a + b + 2.0 * q;
    assert (z * s) * (z * s) == zz * (s * s);
    assert zz * (a + b + 2.0 * q) == zz * (a + b) + 2.0 * zz * q;
  }

  lemma ProductOfSquares(ra: real, rb: real, a: real, b: real, q: real)
    requires a == ra * ra && b == rb * rb && q == ra * rb
    ensures q * q == a * b
  {
    assert q * q == (ra * ra) * (rb * rb);
  }

  lemma SquareOfTwice(zz: real, q: real, qq: real)
    requires q * q == qq
    ensures (2.0 * zz * q) * (2.0 * zz * q) == 4.0 * zz * zz * qq
  {
    assert (2.0 * zz * q) * (2.0 * zz * q) == 4.0 * zz * zz * (q * q);
  }

  lemma RootRule(d: real, c: real, a: real, r: real)
    requires c > 0.0 && a > 0.0 && r > 0.0 && r * r == a
    ensures d / r > c <==> ExceedsRoot(d, c, a)
  {
    var q := d / r;
    assert q * r == d;
    PositiveProduct(c, r);
    assert (c * r) * (c * r) == c * c * a by {
      assert (c * r) * (c * r) == c * c * (r * r);
    }
    if q > c {
      PositiveProduct(q - c, r);
      assert (q - c) * r == d - c * r;
    } else {
      NonNegativeProduct(c - q, r);
      assert (c - q) * r == c * r - d;
    }
    if d >= 0.0 {
      SquaresOrder(d, c * r);
    }
  }

  /** Both rules, as the code writes them with its standard errors. */
  lemma RulesAreTheRulesWithRoots(we: nat, wb: nat, n: nat, seE: real, seB: real, se: real)
    requires n > 0 && seE >= 0.0 && seB >= 0.0 && se > 0.0
    requires seE * seE == Variance(Rate(we, n), n) && seB * seB == Variance(Rate(wb, n), n)
    requires se * se == PooledVariance(Rate(we, n), Rate(wb, n), n)
    ensures NonOverlap(we, wb, n) <==> Rate(we, n) - 1.959963984540054 * seE > Rate(wb, n) + 1.959963984540054 * seB
    ensures TwoProportion(we, wb, n) <==> (Rate(we, n) - Rate(wb, n)) / se > 1.6448536269514722
  {
    hide Rate, Variance, Spread, ExceedsSumOfRoots, ExceedsRoot;
    var pe, pb := Rate(we, n), Rate(wb, n);
    SumOfRootsRule(pe - pb, Z95, Variance(pe, n), Variance(pb, n), seE, seB);
    RootRule(pe - pb, CRITICAL, PooledVariance(pe, pb, n), se);
  }

  /** The rates are the shares of wins, and the squared standard errors those of one rate and of the pooled
      one, with a floor under each. */
  lemma VariancesSpelledOut(wins: nat, pe: real, pb: real, n: nat)
    requires n > 0
    ensures Rate(wins, n) * n as real == wins as real
    ensures Variance(pe, n) == Max(pe * (1.0 - pe), 0.000000000001) / n as real
    ensures Variance(pb, n) == Max(pb * (1.0 - pb), 0.000000000001) / n as real
    ensures var pooled := (pe + pb) / 2.0;
            PooledVariance(pe, pb, n) == Max(2.0 * (pooled * (1.0 - pooled)) / n as real, 0.000000000001)
  {
    hide Max;
  }

  // ----- Non-overlap is the stricter rule -----

  const LARGEST := 600000

  lemma PooledSpread(pe: real, pb: real)
    ensures 2.0 * Spread((pe + pb) / 2.0) == Spread(pe) + Spread(pb) + (pe - pb) * (pe - pb) / 2.0
  {
  }

  /** On squares and already divided by n: what non-overlap gives is more than the pooled test asks. */
  lemma StricterOnSquares(dd: real, s: real, n: real)
    requires n >= 5.0 && dd > 0.0
    requires Z95 * Z95 * (s / n) <= dd
    ensures CRITICAL * CRITICAL * ((s + dd / 2.0) / n) < dd
  {
    QuotientAdds(s, dd / 2.0, n);
    Scaled(5.0, n, dd / 10.0);
    Ratio(dd / 2.0, n, dd / 10.0);
  }

  lemma HigherRateHasMoreWins(we: nat, wb: nat, n: nat)
    requires n > 0 && Rate(we, n) > Rate(wb, n)
    ensures we > wb
  {
    assert Rate(we, n) * n as real == we as real && Rate(wb, n) * n as real == wb as real;
    if we <= wb {
      PositiveProduct(Rate(we, n) - Rate(wb, n), n as real);
      assert false;
    }
  }

  lemma CountsDiffer(we: nat, wb: nat, n: nat)
    requires 0 < n <= LARGEST && Rate(we, n) > Rate(wb, n)
    ensures var d := Rate(we, n) - Rate(wb, n); d * d > CRITICAL * CRITICAL * FLOOR
  {
    var d, inv := Rate(we, n) - Rate(wb, n), 1.0 / n as real;
    assert Rate(we, n) * n as real == we as real && Rate(wb, n) * n as real == wb as real;
    HigherRateHasMoreWins(we, wb, n);
    assert d * n as real >= 1.0;
    var least := 0.0000016666;
    if d < least {
      PositiveProduct(least - d, n as real);
      assert false;
    }
    SquaresOrder(d, least);
    NonNegativeProduct(d - least, d + least);
    DifferenceOfSquares(d, least);
  }

  lemma NonOverlapGap(we: nat, wb: nat, n: nat)
    requires n > 0
    ensures NonOverlap(we, wb, n) ==>
              var pe, pb := Rate(we, n), Rate(wb, n);
              we > wb && pe > pb && (pe - pb) * (pe - pb) > Z95 * Z95 * (Variance(pe, n) + Variance(pb, n))
  {
    hide Variance;
    if Rate(we, n) > Rate(wb, n) {
      HigherRateHasMoreWins(we, wb, n);
    }
  }

  lemma VariancesCover(pe: real, pb: real, n: nat)
    requires n > 0
    ensures Variance(pe, n) + Variance(pb, n) >= (Spread(pe) + Spread(pb)) / n as real
  {
    hide Spread;
    QuotientOrder(Spread(pe), Max(Spread(pe), FLOOR), n as real);
    QuotientOrder(Spread(pb), Max(Spread(pb), FLOOR), n as real);
    QuotientAdds(Spread(pe), Spread(pb), n as real);
  }

  lemma NonOverlapIsStricter(we: nat, wb: nat, n: nat)
    requires 5 <= n <= LARGEST
    ensures NonOverlap(we, wb, n) ==> TwoProportion(we, wb, n)
  {
    hide Rate, Spread, Variance, NonOverlap;
    var pe, pb := Rate(we, n), Rate(wb, n);
    var s, dd := Spread(pe) + Spread(pb), (pe - pb) * (pe - pb);
    NonOverlapGap(we, wb, n);
    if NonOverlap(we, wb, n) {
      PooledSpread(pe, pb);
      CountsDiffer(we, wb, n);
      VariancesCover(pe, pb, n);
      PositiveProduct(pe - pb, pe - pb);
      StricterOnSquares(dd, s, n as real);
      assert PooledVariance(pe, pb, n) == Max((s + dd / 2.0) / n as real, FLOOR);
    }
  }

  /** Non-overlap of the intervals implies the two-proportion test on every pair of counts exactly
      when the sample is neither 1 nor 4: the search starts at 5. */
  lemma NonOverlapIsStricterExactly(n: nat)
    requires 0 < n <= LARGEST
    ensures (forall we: nat, wb: nat :: we <= n && wb <= n && NonOverlap(we, wb, n) ==> TwoProportion(we, wb, n))
            <==> n != 1 && n != 4
  {
    if n == 1 {
      assert NonOverlap(1, 0, 1) && !TwoProportion(1, 0, 1);
    } else if n == 4 {
      assert NonOverlap(4, 2, 4) && !TwoProportion(4, 2, 4);
    } else {
      forall we: nat, wb: nat | we <= n && wb <= n && NonOverlap(we, wb, n)
        ensures TwoProportion(we, wb, n)
      {
        if n >= 5 {
          NonOverlapIsStricter(we, wb, n);
        } else {
          SmallSamples(we, wb, n);
        }
      }
    }
  }

  /** Among two or three draws, one more win is never enough to separate the intervals. */
  lemma OneWinIsNotEnough(wb: nat, n: nat)
    requires (n == 2 || n == 3) && wb < n
    ensures !NonOverlap(wb + 1, wb, n)
  {
    hide NonOverlap, Variance;
    assert Rate(0, 2) == 0.0 && Rate(1, 2) == 0.5 && Rate(2, 2) == 1.0;
    assert Rate(0, 3) == 0.0 && Rate(1, 3) == 1.0 / 3.0 && Rate(2, 3) == 2.0 / 3.0 && Rate(3, 3) == 1.0;
    if NonOverlap(wb + 1, wb, n) {
      NonOverlapGap(wb + 1, wb, n);
      VariancesCover(Rate(wb + 1, n), Rate(wb, n), n);
      assert false;
    }
  }

  lemma TwoDraws()
    ensures TwoProportion(2, 0, 2)
  {
  }

  lemma ThreeDraws()
    ensures TwoProportion(2, 0, 3) && TwoProportion(3, 1, 3) && TwoProportion(3, 0, 3)
  {
  }

  lemma SmallSamples(we: nat, wb: nat, n: nat)
    requires (n == 2 || n == 3) && we <= n && wb <= n
    ensures NonOverlap(we, wb, n) ==> TwoProportion(we, wb, n)
  {
    hide NonOverlap, TwoProportion, Rate, Variance;
    NonOverlapGap(we, wb, n);
    if we == wb + 1 {
      OneWinIsNotEnough(wb, n);
    }
    TwoDraws();
    ThreeDraws();
  }

  // ----- Draws from a stream of random numbers -----

  /** The numbers a seeded generator yields, in order. */
  type Stream = nat -> real

  function Wins(draws: Stream, start: nat, n: nat, p: real): (w: nat)
    ensures w <= n
  {
    if n == 0 then 0 else Wins(draws, start, n - 1, p) + if draws(start + n - 1) < p then 1 else 0
  }

  class Rng {
    const draws: Stream
    var position: nat

    constructor (draws: Stream)
      ensures this.draws == draws && position == 0
    {
      this.draws := draws;
      position := 0;
    }

    method Random() returns (u: real)
      modifies this
      ensures u == draws(old(position)) && position == old(position) + 1
    {
      u := draws(position);
      position := position + 1;
    }
  }

  method Draw(rng: Rng, p: real, n: nat) returns (wins: nat)
    modifies rng
    ensures wins == Wins(rng.draws, old(rng.position), n, p)
    ensures rng.position == old(rng.position) + n
  {
    wins := 0;
    var i := 0;
    while i < n
      invariant 0 <= i <= n
      invariant wins == Wins(rng.draws, old(rng.position), i, p)
      invariant rng.position == old(rng.position) + i
    {
      var u := rng.Random();
      if u < p {
        wins := wins + 1;
      }
      i := i + 1;
    }
  }

  datatype Rule = CiNonOverlap | TwoProportionTest

  predicate Decides(rule: Rule, we: nat, wb: nat, n: nat)
    requires n > 0
  {
    match rule
    case CiNonOverlap => NonOverlap(we, wb, n)
    case TwoProportionTest => TwoProportion(we, wb, n)
  }

  /** Trial t of a power estimate: it reads draws 2nt up to 2n(t + 1) of the stream. */
  predicate Trial(rule: Rule, draws: Stream, pe: real, pb: real, n: nat, t: nat)
    requires n > 0
  {
    var start := Offset(n, t);
    Decides(rule, Wins(draws, start, n, pe), Wins(draws, start + n, n, pb), n)
  }

  function Offset(n: nat, t: nat): nat {
    if t == 0 then 0 else Offset(n, t - 1) + 2 * n
  }

  function Hits(rule: Rule, draws: Stream, pe: real, pb: real, n: nat, trials: nat): (h: nat)
    requires n > 0
    ensures h <= trials
  {
    if trials == 0 then 0
    else Hits(rule, draws, pe, pb, n, trials - 1) + if Trial(rule, draws, pe, pb, n, trials - 1) then 1 else 0
  }

  /** What is fixed while the sample size varies; the generator is seeded with seed + n. */
  datatype Study = Study(rule: Rule, streams: int -> Stream, pe: real, pb: real, trials: nat, seed: int)

  function Power(s: Study, n: nat): real
    requires n > 0 && s.trials > 0
  {
    Hits(s.rule, s.streams(s.seed + n), s.pe, s.pb, n, s.trials) as real / s.trials as real
  }

  // ----- What power is, counted -----

  /** Which of the n draws from a position on are below p. */
  function Below(draws: Stream, start: nat, n: nat, p: real): set<nat> {
    set j: nat | j < n && IsBelow(draws, start, j, p)
  }

  predicate IsBelow(draws: Stream, start: nat, j: nat, p: real) {
    draws(start + j) < p
  }

  lemma BelowGrows(draws: Stream, start: nat, n: nat, p: real)
    ensures n !in Below(draws, start, n, p)
    ensures Below(draws, start, n + 1, p)
              == Below(draws, start, n, p) + if IsBelow(draws, start, n, p) then {n} else {}
  {
    hide IsBelow;
  }

  lemma {:induction false} WinsAreBelow(draws: Stream, start: nat, n: nat, p: real)
    ensures Wins(draws, start, n, p) == |Below(draws, start, n, p)|
  {
    if n == 0 {
      assert Below(draws, start, n, p) == {};
    } else {
      hide Below;
      WinsAreBelow(draws, start, n - 1, p);
      BelowGrows(draws, start, n - 1, p);
    }
  }

  lemma {:induction false} OffsetIsProduct(n: nat, t: nat)
    ensures Offset(n, t) == 2 * n * t
  {
    if t > 0 {
      OffsetIsProduct(n, t - 1);
      assert 2 * n * t == 2 * n * (t - 1) + 2 * n;
    }
  }

  /** Trial t is accepted: the rule decides for the counts among its own 2n draws of the stream, the first
      n for the engine's rate and the next n for the benchmark's. */
  ghost predicate Accepted(s: Study, n: nat, t: nat)
    requires n > 0
  {
    forall we: nat, wb: nat | Counted(s, n, t, we, wb) :: Decides(s.rule, we, wb, n)
  }

  predicate Counted(s: Study, n: nat, t: nat, we: nat, wb: nat) {
    var draws := s.streams(s.seed + n);
    we == |Below(draws, 2 * n * t, n, s.pe)| && wb == |Below(draws, 2 * n * t + n, n, s.pb)|
  }

  ghost function AcceptedTrials(s: Study, n: nat, trials: nat): set<nat>
    requires n > 0
  {
    set t: nat | t < trials && Accepted(s, n, t)
  }

  lemma TrialIsAccepted(s: Study, n: nat, t: nat)
    requires n > 0
    ensures Trial(s.rule, s.streams(s.seed + n), s.pe, s.pb, n, t) <==> Accepted(s, n, t)
  {
    hide Decides, Below, Wins;
    var draws := s.streams(s.seed + n);
    OffsetIsProduct(n, t);
    WinsAreBelow(draws, Offset(n, t), n, s.pe);
    WinsAreBelow(draws, Offset(n, t) + n, n, s.pb);
    assert Counted(s, n, t, |Below(draws, 2 * n * t, n, s.pe)|, |Below(draws, 2 * n * t + n, n, s.pb)|);
  }

  lemma AcceptedGrows(s: Study, n: nat, t: nat)
    requires n > 0
    ensures t !in AcceptedTrials(s, n, t)
    ensures AcceptedTrials(s, n, t + 1) == AcceptedTrials(s, n, t) + if Accepted(s, n, t) then {t} else {}
  {
    hide Accepted;
  }

  lemma {:induction false} HitsAreAccepted(s: Study, n: nat, trials: nat)
    requires n > 0
    ensures Hits(s.rule, s.streams(s.seed + n), s.pe, s.pb, n, trials) == |AcceptedTrials(s, n, trials)|
  {
    hide Accepted, Trial;
    if trials == 0 {
      assert AcceptedTrials(s, n, trials) == {};
    } else {
      hide AcceptedTrials;
      HitsAreAccepted(s, n, trials - 1);
      TrialIsAccepted(s, n, trials - 1);
      AcceptedGrows(s, n, trials - 1);
    }
  }

  /** The power is the share of accepted trials on the stream seeded with seed + n. */
  lemma PowerIsShare(s: Study, n: nat)
    requires n > 0 && s.trials > 0
    ensures Power(s, n) == |AcceptedTrials(s, n, s.trials)| as real / s.trials as real
  {
    hide Hits;
    HitsAreAccepted(s, n, s.trials);
  }

  method PowerAt(s: Study, n: nat) returns (power: real)
    requires n > 0 && s.trials > 0
    ensures power == Power(s, n)
    ensures power == |AcceptedTrials(s, n, s.trials)| as real / s.trials as real
  {
    hide Decides, AcceptedTrials;
    PowerIsShare(s, n);
    var rng := new Rng(s.streams(s.seed + n));
    var hits, t := 0, 0;
    while t < s.trials
      invariant 0 <= t <= s.trials && rng.draws == s.streams(s.seed + n)
      invariant rng.position == Offset(n, t)
      invariant hits == Hits(s.rule, rng.draws, s.pe, s.pb, n, t)
    {
      var we := Draw(rng, s.pe, n);
      var wb := Draw(rng, s.pb, n);
      if Decides(s.rule, we, wb, n) {
        hits := hits + 1;
      }
      t := t + 1;
    }
    power := hits as real / s.trials as real;
  }

  lemma {:induction false} HitsAreFewer(draws: Stream, pe: real, pb: real, n: nat, trials: nat)
    requires 5 <= n <= LARGEST
    ensures Hits(CiNonOverlap, draws, pe, pb, n, trials) <= Hits(TwoProportionTest, draws, pe, pb, n, trials)
  {
    hide NonOverlap, TwoProportion;
    if trials > 0 {
      HitsAreFewer(draws, pe, pb, n, trials - 1);
      if Trial(CiNonOverlap, draws, pe, pb, n, trials - 1) {
        var start := Offset(n, trials - 1);
        NonOverlapIsStricter(Wins(draws, start, n, pe), Wins(draws, start + n, n, pb), n);
      }
    }
  }

  /** At every sample size searched, on the same seed, the two-proportion test has at least the power
      of non-overlap, and its false-positive rate (the two rates equal) is at least as high. */
  lemma PowerIsOrdered(s: Study, n: nat)
    requires 5 <= n <= LARGEST && s.trials > 0
    ensures Power(s.(rule := CiNonOverlap), n) <= Power(s.(rule := TwoProportionTest), n)
  {
    hide Hits;
    HitsAreFewer(s.streams(s.seed + n), s.pe, s.pb, n, s.trials);
    var a := Hits(CiNonOverlap, s.streams(s.seed + n), s.pe, s.pb, n, s.trials) as real;
    var b := Hits(TwoProportionTest, s.streams(s.seed + n), s.pe, s.pb, n, s.trials) as real;
    var t := s.trials as real;
    assert b / t - a / t == (b - a) / t;
  }

  // ----- The search for the required sample -----

  predicate Enough(s: Study, target: real, n: nat)
    requires n > 0 && s.trials > 0
  {
    Power(s, n) >= target
  }

  function Bisect(s: Study, target: real, low: nat, high: nat): (n: nat)
    requires 0 < low <= high && s.trials > 0
    ensures low <= n <= high
    decreases high - low
  {
    if low == high then low
    else
      var mid := (low + high) / 2;
      if Enough(s, target, mid) then Bisect(s, target, low, mid) else Bisect(s, target, mid + 1, high)
  }

  /** Below a cap of 5 the search has no room: it answers 5 if the cap itself is enough. */
  function Required(s: Study, target: real, cap: nat): Option<nat>
    requires cap > 0 && s.trials > 0
  {
    if !Enough(s, target, cap) then None
    else if cap <= 5 then Some(5)
    else Some(Bisect(s, target, 5, cap))
  }

  method RequiredN(s: Study, target: real, cap: nat) returns (r: Option<nat>)
    requires cap > 0 && s.trials > 0
    ensures r == Required(s, target, cap)
  {
    hide Power;
    var low, high := 5, cap;
    var power := PowerAt(s, high);
    if power < target {
      return None;
    }
    while low < high
      invariant 5 <= low && (low <= high || (low == 5 && high == cap))
      invariant cap <= 5 ==> low == 5
      invariant cap > 5 ==> low <= high <= cap && Bisect(s, target, low, high) == Bisect(s, target, 5, cap)
      decreases high - low
    {
      var mid := (low + high) / 2;
      power := PowerAt(s, mid);
      if power >= target {
        high := mid;
      } else {
        low := mid + 1;
      }
    }
    return Some(low);
  }

  /** Bisection lands on a size that is enough whose predecessor, unless it is the start, is not. */
  lemma {:induction false} BisectFinds(s: Study, target: real, low: nat, high: nat)
    requires 0 < low <= high && s.trials > 0 && Enough(s, target, high)
    ensures var n := Bisect(s, target, low, high);
            Enough(s, target, n) && (n == low || !Enough(s, target, n - 1))
    decreases high - low
  {
    hide Power, Enough;
    if low < high {
      var mid := (low + high) / 2;
      if Enough(s, target, mid) {
        BisectFinds(s, target, low, mid);
      } else {
        BisectFinds(s, target, mid + 1, high);
      }
    }
  }

  predicate Monotone(s: Study, target: real, cap: nat)
    requires s.trials > 0
  {
    forall m, n :: 5 <= m <= n <= cap && Enough(s, target, m) ==> Enough(s, target, n)
  }

  /** Power need not grow with the sample here, so all the search promises is a local minimum; it is
      the global one when power is monotone. None means exactly that the cap is not enough. */
  lemma RequiredIsLocalMinimum(s: Study, target: real, cap: nat)
    requires cap >= 5 && s.trials > 0
    ensures Required(s, target, cap).None? <==> !Enough(s, target, cap)
    ensures Required(s, target, cap).Some? ==>
              var n := Required(s, target, cap).value;
              && 5 <= n <= cap && Enough(s, target, n) && (n == 5 || !Enough(s, target, n - 1))
              && (Monotone(s, target, cap) ==> forall k :: 5 <= k < n ==> !Enough(s, target, k))
  {
    hide Power, Enough;
    if Enough(s, target, cap) {
      BisectFinds(s, target, 5, cap);
      var n := Bisect(s, target, 5, cap);
      if Monotone(s, target, cap) {
        forall k | 5 <= k < n ensures !Enough(s, target, k) {
          if Enough(s, target, k) {
            assert false;
          }
        }
      }
    }
  }

  /** What the search is documented to find: the smallest size within the cap, None if there is none. */
  ghost predicate FindsSmallest(s: Study, target: real, cap: nat)
    requires cap >= 5 && s.trials > 0
  {
    match Required(s, target, cap)
    case None => forall k :: 5 <= k <= cap ==> !Enough(s, target, k)
    case Some(n) => 5 <= n <= cap && Enough(s, target, n) && forall k :: 5 <= k < n ==> !Enough(s, target, k)
  }

  /** It finds that under every cap up to a limit exactly when being enough is monotone up to the limit. */
  lemma SmallestExactlyIfMonotone(s: Study, target: real, limit: nat)
    requires s.trials > 0
    ensures (forall cap :: 5 <= cap <= limit ==> FindsSmallest(s, target, cap)) <==> Monotone(s, target, limit)
  {
    hide Power, Enough, Required;
    forall cap | 5 <= cap <= limit && Monotone(s, target, limit) ensures FindsSmallest(s, target, cap) {
      RequiredIsLocalMinimum(s, target, cap);
      assert Monotone(s, target, cap);
    }
    if forall cap :: 5 <= cap <= limit ==> FindsSmallest(s, target, cap) {
      forall m, n | 5 <= m <= n <= limit && Enough(s, target, m) ensures Enough(s, target, n) {
        RequiredIsLocalMinimum(s, target, n);
        assert FindsSmallest(s, target, n);
      }
    }
  }

  /** One trial on streams that let the first `seed` draws win, none at 6: enough at 5 and at 7, not in between. */
  const DIPPING := Study(TwoProportionTest, s => (i => if s != 6 && i < s then 0.0 else 1.0), 0.5, 0.5, 1, 0)

  lemma {:induction false} WinsOfRun(draws: Stream, start: nat, n: nat, p: real, wins: bool)
    requires forall i :: start <= i < start + n ==> (draws(i) < p <==> wins)
    ensures Wins(draws, start, n, p) == if wins then n else 0
  {
    if n > 0 {
      WinsOfRun(draws, start, n - 1, p, wins);
    }
  }

  lemma DippingPower(n: nat)
    requires n > 0
    ensures Enough(DIPPING, 1.0, n) <==> n != 6 && TwoProportion(n, 0, n)
  {
    var draws := DIPPING.streams(DIPPING.seed + n);
    WinsOfRun(draws, 0, n, 0.5, n != 6);
    WinsOfRun(draws, n, n, 0.5, false);
    assert Offset(n, 0) == 0;
    assert Hits(TwoProportionTest, draws, 0.5, 0.5, n, 1) == if Trial(TwoProportionTest, draws, 0.5, 0.5, n, 0) then 1 else 0;
  }

  lemma AllAgainstNone(n: nat)
    requires n == 5 || n == 7
    ensures TwoProportion(n, 0, n)
  {
  }

  /** A smaller sample than the answer can be enough: the search meets 6, which is not, and goes up. */
  lemma SearchCanMissTheSmallest()
    ensures Enough(DIPPING, 1.0, 5) && Required(DIPPING, 1.0, 7) == Some(7)
  {
    hide Enough, TwoProportion;
    DippingPower(5);
    DippingPower(6);
    DippingPower(7);
    AllAgainstNone(5);
    AllAgainstNone(7);
    assert Bisect(DIPPING, 1.0, 7, 7) == 7;
    assert Bisect(DIPPING, 1.0, 5, 7) == Bisect(DIPPING, 1.0, 7, 7);
  }

  /** The answer lies within the cap and meets the target exactly when the cap leaves room for the start. */
  lemma AnswerIsEnoughExactly(s: Study, target: real, cap: nat)
    requires cap > 0 && s.trials > 0 && Enough(s, target, cap)
    ensures var n := Required(s, target, cap).value;
            n <= cap && Enough(s, target, n) <==> cap >= 5
  {
    if cap >= 5 {
      RequiredIsLocalMinimum(s, target, cap);
    }
  }

  lemma {:induction false} BisectIsOrdered(a: Study, b: Study, target: real, low: nat, high: nat)
    requires 0 < low <= high && a.trials > 0 && b.trials > 0
    requires forall n :: low <= n <= high && Enough(a, target, n) ==> Enough(b, target, n)
    ensures Bisect(b, target, low, high) <= Bisect(a, target, low, high)
    decreases high - low
  {
    hide Power, Enough;
    if low < high {
      var mid := (low + high) / 2;
      if Enough(a, target, mid) {
        BisectIsOrdered(a, b, target, low, mid);
      } else if !Enough(b, target, mid) {
        BisectIsOrdered(a, b, target, mid + 1, high);
      }
    }
  }

  /** Without assuming monotone power: wherever non-overlap finds a sample, the two-proportion test
      finds one that is no larger. */
  lemma TwoProportionNeedsNoMore(s: Study, target: real, cap: nat)
    requires 5 <= cap <= LARGEST && s.trials > 0
    ensures var strict, loose := Required(s.(rule := CiNonOverlap), target, cap),
                                 Required(s.(rule := TwoProportionTest), target, cap);
            strict.Some? ==> loose.Some? && loose.value <= strict.value
  {
    hide Power;
    var a, b := s.(rule := CiNonOverlap), s.(rule := TwoProportionTest);
    forall n | 5 <= n <= cap && Enough(a, target, n) ensures Enough(b, target, n) {
      PowerIsOrdered(s, n);
    }
    BisectIsOrdered(a, b, target, 5, cap);
  }
}
