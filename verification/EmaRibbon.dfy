/**
 The chart's ribbon of exponential moving averages, and the order it must show on a
 monotone price series.
*/
module EmaRibbon {
  import opened Common
  import opened RealArithmetic

  const PERIODS: seq<nat> := [20, 25, 30, 35, 40, 45, 50, 55]
  const COMPRESSION_PCT := 0.65

  /** An array slot: not yet a number, or a finite number. */
  datatype Sample = NaN | Num(value: real)

  datatype RibbonState = Bullish | Bearish | Compressed | Mixed

  datatype PriceRelation = Above | Below | Inside

  datatype Candle = Candle(time: int, close: real)

  datatype RibbonPoint = RibbonPoint(time: int, value: Sample, state: RibbonState)

  datatype Series = Series(period: nat, points: seq<RibbonPoint>)

  datatype Ribbon = Ribbon(
    series: seq<Series>, state: RibbonState, spreadPct: real,
    fastValue: real, slowValue: real, priceRelation: PriceRelation)

  // ----- Averages -----

  function Sum(values: seq<real>, n: nat): real
    requires n <= |values|
  {
    if n == 0 then 0.0 else Sum(values, n - 1) + values[n - 1]
  }

  function Mean(values: seq<real>, n: nat): real
    requires 0 < n <= |values|
  {
    Sum(values, n) / n as real
  }

  function Multiplier(period: nat): (w: real)
    requires period >= 1
    ensures 0.0 < w <= 1.0
  {
    2.0 / (period as real + 1.0)
  }

  function Move(w: real, prev: real, value: real): real {
    (value - prev) * w + prev
  }

  function EmaAt(values: seq<real>, period: nat, i: nat): real
    requires 1 <= period && period - 1 <= i < |values|
  {
    if i == period - 1 then Mean(values, period)
    else Move(Multiplier(period), EmaAt(values, period, i - 1), values[i])
  }

  function EmaSample(values: seq<real>, period: nat, i: nat): Sample
    requires 1 <= period && i < |values|
  {
    if i < period - 1 then NaN else Num(EmaAt(values, period, i))
  }

  function EmaSeries(values: seq<real>, period: nat): (r: seq<Sample>)
    requires 1 <= period
    ensures |r| == |values|
  {
    seq(|values|, i requires 0 <= i < |values| => EmaSample(values, period, i))
  }

  lemma TooShort(values: seq<real>, period: nat)
    requires |values| < period
    ensures forall j :: 0 <= j < |values| ==> EmaSample(values, period, j) == NaN
  {
  }

  lemma SampleSeed(values: seq<real>, period: nat)
    requires 1 <= period <= |values|
    ensures EmaSample(values, period, period - 1) == Num(Sum(values, period) / period as real)
    ensures forall j :: 0 <= j < period - 1 ==> EmaSample(values, period, j) == NaN
  {
  }

  lemma SampleStep(values: seq<real>, period: nat, i: nat)
    requires 1 <= period <= i < |values|
    ensures EmaSample(values, period, i - 1).Num?
    ensures EmaSample(values, period, i)
              == Num((values[i] - EmaSample(values, period, i - 1).value) * Multiplier(period) + EmaSample(values, period, i - 1).value)
  {
  }

  /** The average as the chart fills it, in place. */
  method Ema(values: seq<real>, period: nat) returns (result: array<Sample>)
    requires 1 <= period
    ensures fresh(result) && result[..] == EmaSeries(values, period)
  {
    hide EmaSample;
    result := new Sample[|values|](_ => NaN);
    if |values| < period {
      TooShort(values, period);
      return;
    }
    var sum := 0.0;
    var k := 0;
    while k < period
      invariant 0 <= k <= period && sum == Sum(values, k)
    {
      sum := sum + values[k];
      k := k + 1;
    }
    result[period - 1] := Num(sum / period as real);
    SampleSeed(values, period);
    var multiplier := 2.0 / (period as real + 1.0);
    var index := period;
    while index < |values|
      invariant period <= index <= |values|
      invariant forall j :: 0 <= j < index ==> result[j] == EmaSample(values, period, j)
      invariant forall j :: index <= j < |values| ==> result[j] == NaN
    {
      SampleStep(values, period, index);
      var prev := result[index - 1].value;
      result[index] := Num((values[index] - prev) * multiplier + prev);
      index := index + 1;
    }
  }

  // ----- The ribbon -----

  function MaxOf(values: seq<real>): (m: real)
    requires values != []
    ensures m in values && forall x :: x in values ==> x <= m
  {
    assert values == [values[0]] + values[1..];
    if |values| == 1 then values[0] else Max(values[0], MaxOf(values[1..]))
  }

  function MinOf(values: seq<real>): (m: real)
    requires values != []
    ensures m in values && forall x :: x in values ==> m <= x
  {
    assert values == [values[0]] + values[1..];
    if |values| == 1 then values[0] else Min(values[0], MinOf(values[1..]))
  }

  predicate Falling(values: seq<real>) {
    forall i :: 0 <= i < |values| - 1 ==> values[i] > values[i + 1]
  }

  predicate Rising(values: seq<real>) {
    forall i :: 0 <= i < |values| - 1 ==> values[i] < values[i + 1]
  }

  function Numbers(samples: seq<Sample>): seq<real>
    requires NaN !in samples
  {
    seq(|samples|, i requires 0 <= i < |samples| => (assert samples[i] in samples; samples[i].value))
  }

  /** Values run from the fastest average to the slowest. */
  function StateOf(samples: seq<Sample>, close: real): RibbonState
    requires samples != []
  {
    if NaN in samples || close == 0.0 then Mixed else Classified(Numbers(samples), close)
  }

  function Classified(values: seq<real>, close: real): RibbonState
    requires values != [] && close != 0.0
  {
    if SpreadPct(values, close) <= COMPRESSION_PCT then Compressed
    else if Falling(values) then Bullish
    else if Rising(values) then Bearish
    else Mixed
  }

  function SpreadPct(values: seq<real>, close: real): real
    requires values != [] && close != 0.0
  {
    (MaxOf(values) - MinOf(values)) / Abs(close) * 100.0
  }

  /** Math.round: to the nearest, halves up. */
  function RoundHalfUp(x: real): real {
    (x * 100.0 + 0.5).Floor as real / 100.0
  }

  function SamplesAt(closes: seq<real>, i: nat): (s: seq<Sample>)
    requires i < |closes|
    ensures |s| == |PERIODS|
  {
    seq(|PERIODS|, k requires 0 <= k < |PERIODS| => EmaSample(closes, PERIODS[k], i))
  }

  function Closes(candles: seq<Candle>): (c: seq<real>)
    ensures |c| == |candles|
  {
    seq(|candles|, i requires 0 <= i < |candles| => candles[i].close)
  }

  function Relation(values: seq<real>, close: real): PriceRelation
    requires values != []
  {
    if close > MaxOf(values) then Above else if close < MinOf(values) then Below else Inside
  }

  /** None below 55 candles. The spread is a finite number only when the latest close is not zero. */
  function BuildEmaRibbon(candles: seq<Candle>): Option<Ribbon> {
    if |candles| < 55 then None
    else
      var closes := Closes(candles);
      var start, last := 54, |candles| - 1;
      var series := seq(|PERIODS|, k requires 0 <= k < |PERIODS| =>
        Series(PERIODS[k], seq(|candles| - start, v requires 0 <= v < |candles| - start =>
          RibbonPoint(candles[start + v].time, EmaSample(closes, PERIODS[k], start + v),
                      StateOf(SamplesAt(closes, start + v), closes[start + v])))));
      var latest := LatestValues(closes, last);
      Some(Ribbon(series, StateOf(SamplesAt(closes, last), closes[last]),
                  if closes[last] == 0.0 then 0.0 else RoundHalfUp(SpreadPct(latest, closes[last])),
                  latest[0], latest[|latest| - 1], Relation(latest, closes[last])))
  }

  function LatestValues(closes: seq<real>, i: nat): (v: seq<real>)
    requires 54 <= i < |closes|
    ensures |v| == |PERIODS|
  {
    seq(|PERIODS|, k requires 0 <= k < |PERIODS| => EmaAt(closes, PERIODS[k], i))
  }

  lemma SamplesAreNumbers(closes: seq<real>, i: nat)
    requires 54 <= i < |closes|
    ensures NaN !in SamplesAt(closes, i) && Numbers(SamplesAt(closes, i)) == LatestValues(closes, i)
  {
    assert forall k :: 0 <= k < |PERIODS| ==> PERIODS[k] - 1 <= 54;
  }

  // ----- Monotone prices -----

  predicate NonDecreasing(xs: seq<real>) {
    forall i, j :: 0 <= i < j < |xs| ==> xs[i] <= xs[j]
  }

  predicate Increasing(xs: seq<real>) {
    forall i, j :: 0 <= i < j < |xs| ==> xs[i] < xs[j]
  }

  /** A faster move from a value at least as high ends at least as high; strictly higher below the target. */
  lemma FasterMove(w: real, v: real, a: real, b: real, x: real)
    requires 0.0 <= v < w <= 1.0 && b <= a <= x
    ensures Move(w, a, x) >= Move(v, b, x)
    ensures a < x ==> Move(w, a, x) > Move(v, b, x)
  {
    NonNegativeProduct(w - v, x - a);
    NonNegativeProduct(1.0 - v, a - b);
    assert Move(w, a, x) - Move(v, b, x) == (w - v) * (x - a) + (1.0 - v) * (a - b);
    if a < x {
      PositiveProduct(w - v, x - a);
    }
  }

  lemma MoveStaysBelow(w: real, a: real, x: real)
    requires 0.0 < w <= 1.0 && a <= x
    ensures Move(w, a, x) <= x
    ensures a < x && w < 1.0 ==> Move(w, a, x) < x
  {
    hide Move;
    MoveStopsShort(w, a, x);
    if a < x && w < 1.0 {
      MoveStopsStrictlyShort(w, a, x);
    }
  }

  lemma MoveStopsShort(w: real, a: real, x: real)
    requires w <= 1.0 && a <= x
    ensures Move(w, a, x) <= x
  {
    NonNegativeProduct(1.0 - w, x - a);
  }

  lemma MoveStopsStrictlyShort(w: real, a: real, x: real)
    requires w < 1.0 && a < x
    ensures Move(w, a, x) < x
  {
    var rest, gap := 1.0 - w, x - a;
    PositiveProduct(rest, gap);
    Remainder(w, rest, a, gap);
    assert x == a + gap;
  }

  lemma Remainder(w: real, rest: real, a: real, gap: real)
    requires w + rest == 1.0
    ensures Move(w, a, a + gap) == a + gap - rest * gap
  {
    assert rest == 1.0 - w;
    assert rest * gap == (1.0 - w) * gap;
  }

  /** The running mean moves toward each new value at speed 1/(n + 1). */
  lemma MeanMoves(values: seq<real>, n: nat)
    requires 0 < n < |values|
    ensures Mean(values, n + 1) == Move(1.0 / (n as real + 1.0), Mean(values, n), values[n])
  {
    MeanStep(Sum(values, n), n as real, values[n]);
  }

  lemma MeanProduct(m: real, n: real, w: real, x: real)
    requires w * (n + 1.0) == 1.0
    ensures Move(w, m, x) * (n + 1.0) == m * n + x
  {
    assert Move(w, m, x) * (n + 1.0) == (x - m) * (w * (n + 1.0)) + m * (n + 1.0);
  }

  lemma MeanStep(s: real, n: real, x: real)
    requires n > 0.0
    ensures (s + x) / (n + 1.0) == Move(1.0 / (n + 1.0), s / n, x)
  {
    var m, w := s / n, 1.0 / (n + 1.0);
    assert m * n == s;
    assert w * (n + 1.0) == 1.0;
    MeanProduct(m, n, w, x);
    Divided(s + x, n + 1.0, Move(w, m, x));
  }

  lemma {:induction false} MeanIsBelowLast(xs: seq<real>, n: nat)
    requires NonDecreasing(xs) && 0 < n <= |xs|
    ensures Mean(xs, n) <= xs[n - 1]
    ensures n >= 2 && Increasing(xs) ==> Mean(xs, n) < xs[n - 1]
  {
    if n == 1 {
      assert Sum(xs, 1) == xs[0];
    } else {
      MeanIsBelowLast(xs, n - 1);
      MeanMoves(xs, n - 1);
      SpeedIsFraction(n - 1);
      MoveStaysBelow(1.0 / ((n - 1) as real + 1.0), Mean(xs, n - 1), xs[n - 1]);
    }
  }

  lemma SpeedIsFraction(n: nat)
    requires n > 0
    ensures 0.0 < 1.0 / (n as real + 1.0) < 1.0
  {
  }

  lemma {:induction false} EmaIsBelowClose(xs: seq<real>, period: nat, i: nat)
    requires NonDecreasing(xs) && 2 <= period && period - 1 <= i < |xs|
    ensures EmaAt(xs, period, i) <= xs[i]
    ensures Increasing(xs) ==> EmaAt(xs, period, i) < xs[i]
  {
    if i == period - 1 {
      MeanIsBelowLast(xs, period);
    } else {
      EmaIsBelowClose(xs, period, i - 1);
      MoveStaysBelow(Multiplier(period), EmaAt(xs, period, i - 1), xs[i]);
    }
  }

  lemma FasterThanMean(period: nat, n: nat)
    requires 1 <= period <= n
    ensures 0.0 < 1.0 / (n as real + 1.0) < Multiplier(period)
  {
    var a, b := period as real + 1.0, n as real + 1.0;
    var u, v := 1.0 / a, 1.0 / b;
    assert u * a == 1.0 && v * b == 1.0;
    if v > u {
      PositiveProduct(v - u, b);
      NonNegativeProduct(u, b - a);
      assert false;
    }
  }

  lemma ShorterIsFaster(p: nat, q: nat)
    requires 1 <= p < q
    ensures Multiplier(p) > Multiplier(q)
  {
    var a, b := p as real + 1.0, q as real + 1.0;
    var u, v := Multiplier(p), Multiplier(q);
    assert u * a == 2.0 && v * b == 2.0;
    if v >= u {
      NonNegativeProduct(v - u, b);
      PositiveProduct(u, b - a);
      assert false;
    }
  }

  /** On a rising series the average leads the running mean it was seeded with. */
  lemma {:induction false} EmaLeadsMean(xs: seq<real>, period: nat, i: nat)
    requires NonDecreasing(xs) && 2 <= period && period - 1 <= i < |xs|
    ensures EmaAt(xs, period, i) >= Mean(xs, i + 1)
    ensures i >= period && Increasing(xs) ==> EmaAt(xs, period, i) > Mean(xs, i + 1)
  {
    if i >= period {
      EmaLeadsMean(xs, period, i - 1);
      EmaIsBelowClose(xs, period, i - 1);
      MeanMoves(xs, i);
      FasterThanMean(period, i);
      FasterMove(Multiplier(period), 1.0 / (i as real + 1.0), EmaAt(xs, period, i - 1), Mean(xs, i), xs[i]);
    }
  }

  /** The shorter average leads the longer one wherever both exist. */
  lemma {:induction false} ShorterLeadsLonger(xs: seq<real>, p: nat, q: nat, i: nat)
    requires NonDecreasing(xs) && 2 <= p < q && q - 1 <= i < |xs|
    ensures EmaAt(xs, p, i) >= EmaAt(xs, q, i)
    ensures Increasing(xs) ==> EmaAt(xs, p, i) > EmaAt(xs, q, i)
  {
    if i == q - 1 {
      EmaLeadsMean(xs, p, i);
    } else {
      ShorterLeadsLonger(xs, p, q, i - 1);
      ShorterIsFaster(p, q);
      EmaIsBelowClose(xs, p, i - 1);
      FasterMove(Multiplier(p), Multiplier(q), EmaAt(xs, p, i - 1), EmaAt(xs, q, i - 1), xs[i]);
    }
  }

  lemma RibbonIsOrdered(xs: seq<real>, i: nat)
    requires NonDecreasing(xs) && 54 <= i < |xs|
    ensures var v := LatestValues(xs, i);
            && !Rising(v)
            && (forall k :: 0 <= k < |v| ==> v[k] <= xs[i])
            && (Increasing(xs) ==> Falling(v) && forall k :: 0 <= k < |v| ==> v[k] < xs[i])
  {
    var v := LatestValues(xs, i);
    forall k | 0 <= k < |v| - 1
      ensures v[k] >= v[k + 1] && (Increasing(xs) ==> v[k] > v[k + 1])
    {
      ShorterLeadsLonger(xs, PERIODS[k], PERIODS[k + 1], i);
    }
    forall k | 0 <= k < |v|
      ensures v[k] <= xs[i] && (Increasing(xs) ==> v[k] < xs[i])
    {
      EmaIsBelowClose(xs, PERIODS[k], i);
    }
    assert v[0] >= v[1];
  }

  lemma StateOnRise(xs: seq<real>, i: nat)
    requires NonDecreasing(xs) && 54 <= i < |xs|
    ensures StateOf(SamplesAt(xs, i), xs[i]) != Bearish
    ensures Increasing(xs) && xs[i] != 0.0 ==>
              StateOf(SamplesAt(xs, i), xs[i]) == Bullish || StateOf(SamplesAt(xs, i), xs[i]) == Compressed
    ensures Increasing(xs) ==> Relation(LatestValues(xs, i), xs[i]) == Above
  {
    SamplesAreNumbers(xs, i);
    RibbonIsOrdered(xs, i);
    hide LatestValues, SamplesAt, Numbers;
    var v := LatestValues(xs, i);
    assert MaxOf(v) in v;
  }

  /** Every state the ribbon shows: the latest one and the one of each visible point. */
  predicate AllStates(r: Ribbon, allowed: set<RibbonState>) {
    && r.state in allowed
    && forall k, v :: 0 <= k < |r.series| && 0 <= v < |r.series[k].points| ==> r.series[k].points[v].state in allowed
  }

  /** On strictly rising prices the ribbon is only ever bullish or compressed, with the price above
      it; on prices that merely never fall, it is never bearish. */
  lemma RibbonOnRisingPrices(candles: seq<Candle>)
    requires |candles| >= 55 && NonDecreasing(Closes(candles))
    ensures BuildEmaRibbon(candles).Some?
    ensures var r := BuildEmaRibbon(candles).value;
            && AllStates(r, {Bullish, Compressed, Mixed})
            && (Increasing(Closes(candles)) && 0.0 !in Closes(candles)[54..] ==>
                  AllStates(r, {Bullish, Compressed}))
            && (Increasing(Closes(candles)) ==> r.priceRelation == Above && r.fastValue > r.slowValue)
  {
    hide StateOf, Relation, SamplesAt, Increasing, NonDecreasing, EmaAt, LatestValues;
    var xs := Closes(candles);
    forall i | 54 <= i < |xs|
      ensures StateOf(SamplesAt(xs, i), xs[i]) != Bearish
      ensures Increasing(xs) && 0.0 !in xs[54..] ==>
                StateOf(SamplesAt(xs, i), xs[i]) == Bullish || StateOf(SamplesAt(xs, i), xs[i]) == Compressed
    {
      StateOnRise(xs, i);
      assert xs[i] == xs[54..][i - 54];
    }
    StateOnRise(xs, |xs| - 1);
    EndsOrdered(xs);
  }

  /** Visible point v of average k: the candle's time, the average there, the ribbon's state there. */
  lemma DrawnPoint(candles: seq<Candle>, k: nat, v: nat)
    requires |candles| >= 55 && k < |PERIODS| && v < |candles| - 54
    ensures var r, xs, i := BuildEmaRibbon(candles).value, Closes(candles), 54 + v;
            && |r.series| == |PERIODS| && |r.series[k].points| == |candles| - 54
            && PERIODS[k] - 1 <= 54
            && r.series[k].points[v] ==
                 RibbonPoint(candles[i].time, Num(EmaAt(xs, PERIODS[k], i)), StateOf(SamplesAt(xs, i), xs[i]))
  {
    hide StateOf, SamplesAt, EmaSample, EmaAt, LatestValues, SpreadPct, Relation;
    SampleIsNumber(Closes(candles), k, 54 + v);
  }

  lemma SampleIsNumber(xs: seq<real>, k: nat, i: nat)
    requires k < |PERIODS| && 54 <= i < |xs|
    ensures PERIODS[k] - 1 <= 54 && EmaSample(xs, PERIODS[k], i) == Num(EmaAt(xs, PERIODS[k], i))
  {
  }

  lemma HeadlineValues(candles: seq<Candle>)
    requires |candles| >= 55
    ensures var r, xs, last := BuildEmaRibbon(candles).value, Closes(candles), |candles| - 1;
            && r.state == StateOf(SamplesAt(xs, last), xs[last])
            && r.fastValue == EmaAt(xs, 20, last) && r.slowValue == EmaAt(xs, 55, last)
  {
    hide StateOf, SamplesAt, EmaAt, SpreadPct, Relation;
  }

  /** The headline agrees with what is drawn: state, fast and slow value are those of the last points,
      and all averages share one state per candle. */
  lemma HeadlineIsLastPoint(candles: seq<Candle>, k: nat, v: nat)
    requires |candles| >= 55 && k < |PERIODS| && v < |candles| - 54
    ensures var r, n := BuildEmaRibbon(candles).value, |candles| - 54;
            && |r.series| == |PERIODS|
            && |r.series[0].points| == |r.series[7].points| == |r.series[k].points| == n
            && Num(r.fastValue) == r.series[0].points[n - 1].value
            && Num(r.slowValue) == r.series[7].points[n - 1].value
            && r.state == r.series[0].points[n - 1].state
            && r.series[k].points[v].value.Num?
            && r.series[k].points[v].time == candles[54 + v].time
            && r.series[k].points[v].state == r.series[0].points[v].state
  {
    hide BuildEmaRibbon, StateOf, EmaAt, SamplesAt;
    HeadlineValues(candles);
    DrawnPoint(candles, 0, |candles| - 55);
    DrawnPoint(candles, 7, |candles| - 55);
    DrawnPoint(candles, 0, v);
    DrawnPoint(candles, k, v);
  }

  lemma EndsOrdered(xs: seq<real>)
    requires NonDecreasing(xs) && |xs| >= 55
    ensures var v := LatestValues(xs, |xs| - 1); Increasing(xs) ==> v[0] > v[|v| - 1]
  {
    ShorterLeadsLonger(xs, 20, 55, |xs| - 1);
  }

  // ----- Lag -----

  function OnLine(a: real, b: real, x: real): real {
    a + b * x
  }

  /** The straight line a + b i, as a series of n prices. */
  function Ramp(a: real, b: real, n: nat): (r: seq<real>)
    ensures |r| == n
  {
    seq(n, i requires 0 <= i < n => OnLine(a, b, i as real))
  }

  lemma {:induction false} RampSum(a: real, b: real, n: nat, k: nat)
    requires k <= n
    ensures Sum(Ramp(a, b, n), k) == k as real * (a + b * (k as real - 1.0) / 2.0)
  {
    if k > 0 {
      RampSum(a, b, n, k - 1);
      var x := (k - 1) as real;
      assert k as real == x + 1.0;
      assert x * (a + b * (x - 1.0) / 2.0) + (a + b * x) == (x + 1.0) * (a + b * x / 2.0);
    }
  }

  /** On a straight line an average of period p lags exactly (p - 1) / 2 candles behind, forever:
      the same lag as the plain mean it starts from. */
  lemma {:induction false} RampLag(a: real, b: real, n: nat, period: nat, i: nat)
    requires 1 <= period && period - 1 <= i < n
    ensures EmaAt(Ramp(a, b, n), period, i) == OnLine(a, b, i as real - (period as real - 1.0) / 2.0)
  {
    hide OnLine, Mean, Multiplier, Move;
    var p := period as real;
    if i == period - 1 {
      MeanIsQuotient(Ramp(a, b, n), period);
      RampSum(a, b, n, period);
      MeanOfRamp(a, b, p, Sum(Ramp(a, b, n), period));
    } else {
      RampLag(a, b, n, period, i - 1);
      MultiplierTimes(period);
      LagStep(a, b, p, Multiplier(period), i as real);
    }
  }

  lemma MeanOfRamp(a: real, b: real, p: real, s: real)
    requires p >= 1.0 && s == p * (a + b * (p - 1.0) / 2.0)
    ensures s / p == OnLine(a, b, p - 1.0 - (p - 1.0) / 2.0)
  {
    var m := a + b * (p - 1.0) / 2.0;
    assert s == p * m;
    assert s / p == m;
  }

  lemma MeanIsQuotient(xs: seq<real>, n: nat)
    requires 0 < n <= |xs|
    ensures Mean(xs, n) == Sum(xs, n) / n as real
  {
  }

  lemma MultiplierTimes(period: nat)
    requires period >= 1
    ensures Multiplier(period) * (period as real + 1.0) == 2.0
  {
  }

  lemma LagStep(a: real, b: real, p: real, w: real, x: real)
    requires w * (p + 1.0) == 2.0
    ensures Move(w, OnLine(a, b, x - 1.0 - (p - 1.0) / 2.0), OnLine(a, b, x)) == OnLine(a, b, x - (p - 1.0) / 2.0)
  {
    var prev := a + b * (x - 1.0 - (p - 1.0) / 2.0);
    assert a + b * x - prev == b * (p + 1.0) / 2.0;
    assert (b * (p + 1.0) / 2.0) * w == b * (w * (p + 1.0)) / 2.0;
  }

  // ----- Falling prices, by symmetry -----

  function Negated(xs: seq<real>): (r: seq<real>)
    ensures |r| == |xs|
  {
    seq(|xs|, i requires 0 <= i < |xs| => -xs[i])
  }

  function Flipped(candles: seq<Candle>): (r: seq<Candle>)
    ensures |r| == |candles|
  {
    seq(|candles|, i requires 0 <= i < |candles| => candles[i].(close := -candles[i].close))
  }

  function Opposite(s: RibbonState): RibbonState {
    match s case Bullish => Bearish case Bearish => Bullish case _ => s
  }

  lemma {:induction false} SumNegates(xs: seq<real>, n: nat)
    requires n <= |xs|
    ensures Sum(Negated(xs), n) == -Sum(xs, n)
  {
    if n > 0 {
      SumNegates(xs, n - 1);
    }
  }

  lemma MoveNegates(w: real, a: real, x: real)
    ensures Move(w, -a, -x) == -Move(w, a, x)
  {
  }

  lemma {:induction false} EmaNegates(xs: seq<real>, period: nat, i: nat)
    requires 1 <= period && period - 1 <= i < |xs|
    ensures EmaAt(Negated(xs), period, i) == -EmaAt(xs, period, i)
  {
    if i == period - 1 {
      SumNegates(xs, period);
      var s, n := Sum(xs, period), period as real;
      QuotientNegates(s, n);
    } else {
      EmaNegates(xs, period, i - 1);
      MoveNegates(Multiplier(period), EmaAt(xs, period, i - 1), xs[i]);
    }
  }

  lemma ExtremesNegate(v: seq<real>)
    requires v != []
    ensures MaxOf(Negated(v)) == -MinOf(v) && MinOf(Negated(v)) == -MaxOf(v)
  {
    var n := Negated(v);
    var hi :| 0 <= hi < |n| && n[hi] == MaxOf(n);
    var lo :| 0 <= lo < |n| && n[lo] == MinOf(n);
    var top :| 0 <= top < |v| && v[top] == MaxOf(v);
    var low :| 0 <= low < |v| && v[low] == MinOf(v);
    assert n[top] in n && n[low] in n && v[hi] in v && v[lo] in v;
  }

  lemma ValuesNegate(xs: seq<real>, i: nat)
    requires 54 <= i < |xs|
    ensures LatestValues(Negated(xs), i) == Negated(LatestValues(xs, i))
  {
    forall k | 0 <= k < |PERIODS|
      ensures LatestValues(Negated(xs), i)[k] == Negated(LatestValues(xs, i))[k]
    {
      EmaNegates(xs, PERIODS[k], i);
    }
  }

  lemma OrderNegates(v: seq<real>)
    requires |v| >= 2
    ensures Falling(Negated(v)) == Rising(v) && Rising(Negated(v)) == Falling(v)
    ensures !(Rising(v) && Falling(v))
  {
    var n := Negated(v);
    assert forall i :: 0 <= i < |v| ==> v[i] == -n[i];
    assert v[0] < v[0 + 1] || v[0] >= v[0 + 1];
  }

  lemma ClassifiedNegates(v: seq<real>, close: real)
    requires |v| >= 2 && close != 0.0
    ensures SpreadPct(Negated(v), -close) == SpreadPct(v, close)
    ensures Classified(Negated(v), -close) == Opposite(Classified(v, close))
  {
    hide Negated, MaxOf, MinOf, Rising, Falling;
    ExtremesNegate(v);
    OrderNegates(v);
    assert Abs(-close) == Abs(close);
  }

  lemma StateNegates(xs: seq<real>, i: nat)
    requires 54 <= i < |xs|
    ensures StateOf(SamplesAt(Negated(xs), i), -xs[i]) == Opposite(StateOf(SamplesAt(xs, i), xs[i]))
  {
    hide LatestValues, SamplesAt, Numbers, Classified, Negated;
    SamplesAreNumbers(xs, i);
    SamplesAreNumbers(Negated(xs), i);
    ValuesNegate(xs, i);
    if xs[i] != 0.0 {
      ClassifiedNegates(LatestValues(xs, i), xs[i]);
    }
  }

  function OppositeRelation(r: PriceRelation): PriceRelation {
    match r case Above => Below case Below => Above case Inside => Inside
  }

  lemma RelationNegates(v: seq<real>, close: real)
    requires v != []
    ensures Relation(Negated(v), -close) == OppositeRelation(Relation(v, close))
  {
    ExtremesNegate(v);
    assert MinOf(v) <= MaxOf(v) by {
      assert MinOf(v) in v;
    }
  }

  /** Turning the price series upside down turns the ribbon upside down. */
  lemma RibbonFlips(candles: seq<Candle>)
    requires |candles| >= 55
    ensures var r, f := BuildEmaRibbon(candles).value, BuildEmaRibbon(Flipped(candles)).value;
            && f.state == Opposite(r.state)
            && f.fastValue == -r.fastValue && f.slowValue == -r.slowValue && f.spreadPct == r.spreadPct
            && f.priceRelation == OppositeRelation(r.priceRelation)
  {
    hide StateOf, SamplesAt, EmaAt, MaxOf, MinOf, SpreadPct, Relation, LatestValues;
    var xs := Closes(candles);
    var last := |xs| - 1;
    var v := LatestValues(xs, last);
    assert Closes(Flipped(candles)) == Negated(xs);
    StateNegates(xs, last);
    ValuesNegate(xs, last);
    RelationNegates(v, xs[last]);
    if xs[last] != 0.0 {
      ClassifiedNegates(v, xs[last]);
    }
  }

  lemma PointsFlip(candles: seq<Candle>, k: nat, v: nat)
    requires |candles| >= 55 && k < |PERIODS| && v < |candles| - 54
    ensures var r, f := BuildEmaRibbon(candles).value, BuildEmaRibbon(Flipped(candles)).value;
            && |r.series| == |f.series| == |PERIODS|
            && |r.series[k].points| == |f.series[k].points| == |candles| - 54
            && f.series[k].points[v].state == Opposite(r.series[k].points[v].state)
  {
    hide BuildEmaRibbon, StateOf, SamplesAt, EmaAt;
    DrawnPoint(candles, k, v);
    DrawnPoint(Flipped(candles), k, v);
    assert Closes(Flipped(candles)) == Negated(Closes(candles));
    StateNegates(Closes(candles), 54 + v);
  }

  lemma ZerosFlip(candles: seq<Candle>)
    requires |candles| >= 55 && 0.0 !in Closes(candles)[54..]
    ensures 0.0 !in Closes(Flipped(candles))[54..]
  {
    var xs, ys := Closes(candles)[54..], Closes(Flipped(candles))[54..];
    assert forall i :: 0 <= i < |ys| ==> ys[i] == -xs[i] && xs[i] in xs;
  }

  /** So on prices that never rise the ribbon is never bullish, and on strictly falling
      prices it is bearish or compressed, with the price below it. */
  lemma RibbonOnFallingPrices(candles: seq<Candle>)
    requires |candles| >= 55 && NonDecreasing(Closes(Flipped(candles)))
    ensures var r := BuildEmaRibbon(candles).value;
            && AllStates(r, {Bearish, Compressed, Mixed})
            && (Increasing(Closes(Flipped(candles))) && 0.0 !in Closes(candles)[54..] ==>
                  AllStates(r, {Bearish, Compressed}))
            && (Increasing(Closes(Flipped(candles))) ==> r.priceRelation == Below && r.fastValue < r.slowValue)
  {
    hide Opposite, Increasing, NonDecreasing, AllStates, Closes, StateOf, SamplesAt, EmaAt, BuildEmaRibbon;
    if 0.0 !in Closes(candles)[54..] {
      ZerosFlip(candles);
    }
    RibbonOnRisingPrices(Flipped(candles));
    RibbonFlips(candles);
    AllStatesFlip(candles);
  }

  lemma AllStatesFlip(candles: seq<Candle>)
    requires |candles| >= 55
    ensures BuildEmaRibbon(candles).Some? && BuildEmaRibbon(Flipped(candles)).Some?
    ensures var r, f := BuildEmaRibbon(candles).value, BuildEmaRibbon(Flipped(candles)).value;
            && (AllStates(f, {Bullish, Compressed, Mixed}) ==> AllStates(r, {Bearish, Compressed, Mixed}))
            && (AllStates(f, {Bullish, Compressed}) ==> AllStates(r, {Bearish, Compressed}))
  {
    hide Opposite, StateOf, SamplesAt, EmaAt, AllStates;
    var r, f := BuildEmaRibbon(candles).value, BuildEmaRibbon(Flipped(candles)).value;
    RibbonFlips(candles);
    hide BuildEmaRibbon;
    forall k: nat, v: nat | k < |PERIODS| && v < |candles| - 54
      ensures && |r.series| == |f.series| == |PERIODS|
              && |r.series[k].points| == |f.series[k].points| == |candles| - 54
              && f.series[k].points[v].state == Opposite(r.series[k].points[v].state)
    {
      PointsFlip(candles, k, v);
    }
    PointsFlip(candles, 0, 0);
    forall k | 0 <= k < |PERIODS| ensures |r.series[k].points| == |f.series[k].points| == |candles| - 54 {
      PointsFlip(candles, k, 0);
    }
    FlippedStates(r, f);
  }

  lemma FlippedStates(r: Ribbon, f: Ribbon)
    requires f.state == Opposite(r.state) && |r.series| == |f.series|
    requires forall k :: 0 <= k < |r.series| ==> |r.series[k].points| == |f.series[k].points|
    requires forall k, v :: 0 <= k < |r.series| && 0 <= v < |r.series[k].points| ==>
               f.series[k].points[v].state == Opposite(r.series[k].points[v].state)
    ensures AllStates(f, {Bullish, Compressed, Mixed}) ==> AllStates(r, {Bearish, Compressed, Mixed})
    ensures AllStates(f, {Bullish, Compressed}) ==> AllStates(r, {Bearish, Compressed})
  {
  }

  // ----- What the states, the spread and the price relation mean -----

  /** Every two of the values differ by at most a percentage of the close. */
  predicate WithinPercent(v: seq<real>, percent: real, close: real) {
    forall i, j :: 0 <= i < |v| && 0 <= j < |v| ==> v[i] - v[j] <= percent / 100.0 * Abs(close)
  }

  lemma WidthIsLargest(v: seq<real>, percent: real, close: real)
    requires v != []
    ensures WithinPercent(v, percent, close) <==> MaxOf(v) - MinOf(v) <= percent / 100.0 * Abs(close)
  {
    var hi :| 0 <= hi < |v| && v[hi] == MaxOf(v);
    var lo :| 0 <= lo < |v| && v[lo] == MinOf(v);
    assert WithinPercent(v, percent, close) ==> v[hi] - v[lo] <= percent / 100.0 * Abs(close);
    assert forall i :: 0 <= i < |v| ==> v[i] in v;
  }

  lemma SpreadIsWidth(v: seq<real>, close: real, percent: real)
    requires v != [] && close != 0.0
    ensures SpreadPct(v, close) <= percent <==> WithinPercent(v, percent, close)
  {
    hide WithinPercent, MaxOf, MinOf;
    WidthIsLargest(v, percent, close);
    PercentOf(MaxOf(v) - MinOf(v), Abs(close), percent);
  }

  lemma PercentOf(width: real, size: real, percent: real)
    requires size > 0.0
    ensures width / size * 100.0 <= percent <==> width <= percent / 100.0 * size
  {
    var q := width / size;
    RatioOf(q, width, size, percent / 100.0);
  }

  /** The average of period 20 + 5k drawn at a candle, k from 0 to 7. */
  function DrawnValues(r: Ribbon, v: nat): seq<real>
    requires |r.series| == 8 && forall k :: 0 <= k < 8 ==> v < |r.series[k].points| && r.series[k].points[v].value.Num?
  {
    seq(8, k requires 0 <= k < 8 => r.series[k].points[v].value.value)
  }

  /** A state told from eight averages, fastest first, and the close. */
  predicate StateTells(state: RibbonState, v: seq<real>, close: real)
    requires |v| == 8
  {
    if close == 0.0 then state == Mixed
    else
      && (state == Compressed <==> WithinPercent(v, 0.65, close))
      && (state == Bullish <==> !WithinPercent(v, 0.65, close) && forall k :: 0 <= k < 7 ==> v[k] > v[k + 1])
      && (state == Bearish <==> !WithinPercent(v, 0.65, close) && forall k :: 0 <= k < 7 ==> v[k] < v[k + 1])
  }

  lemma ClassifiedTells(v: seq<real>, close: real)
    requires |v| == 8 && close != 0.0
    ensures StateTells(Classified(v, close), v, close)
  {
    hide WithinPercent, SpreadPct;
    SpreadIsWidth(v, close, 0.65);
    OrderNegates(v);
  }

  lemma StateOfTells(xs: seq<real>, i: nat)
    requires 54 <= i < |xs|
    ensures StateTells(StateOf(SamplesAt(xs, i), xs[i]), LatestValues(xs, i), xs[i])
  {
    hide LatestValues, SamplesAt, Numbers, Classified, StateTells;
    SamplesAreNumbers(xs, i);
    if xs[i] == 0.0 {
      NoCloseTells(LatestValues(xs, i));
    } else {
      ClassifiedTells(LatestValues(xs, i), xs[i]);
    }
  }

  lemma NoCloseTells(v: seq<real>)
    requires |v| == 8
    ensures StateTells(Mixed, v, 0.0)
  {
  }

  lemma DrawnColumn(candles: seq<Candle>, v: nat)
    requires |candles| >= 55 && v < |candles| - 54
    ensures var r, i := BuildEmaRibbon(candles).value, 54 + v;
            && |r.series| == 8
            && (forall k :: 0 <= k < 8 ==> r.series[k].period == 20 + 5 * k && |r.series[k].points| == |candles| - 54
                                            && r.series[k].points[v].value.Num? && r.series[k].points[v].time == candles[i].time
                                            && r.series[k].points[v].state == StateOf(SamplesAt(Closes(candles), i), candles[i].close))
            && DrawnValues(r, v) == LatestValues(Closes(candles), i)
  {
    hide StateOf, SamplesAt, EmaAt;
    var r, xs, i := BuildEmaRibbon(candles).value, Closes(candles), 54 + v;
    Periods(candles);
    forall k | 0 <= k < 8
      ensures && |r.series[k].points| == |candles| - 54
              && r.series[k].points[v] == RibbonPoint(candles[i].time, Num(EmaAt(xs, PERIODS[k], i)), StateOf(SamplesAt(xs, i), xs[i]))
    {
      DrawnPoint(candles, k, v);
    }
  }

  lemma Periods(candles: seq<Candle>)
    requires |candles| >= 55
    ensures var r := BuildEmaRibbon(candles).value;
            |r.series| == 8 && forall k :: 0 <= k < 8 ==> r.series[k].period == PERIODS[k] == 20 + 5 * k
  {
    hide StateOf, SamplesAt, EmaSample, LatestValues, SpreadPct, Relation;
  }

  /** Every drawn candle: compressed exactly when every two of the eight averages differ by at most 0.65% of
      the close, otherwise bullish exactly when they strictly descend from the fastest to the slowest
      and bearish exactly when they strictly ascend; a zero close is mixed. */
  lemma StatesExactly(candles: seq<Candle>, v: nat, k: nat)
    requires |candles| >= 55 && v < |candles| - 54 && k < 8
    ensures var r := BuildEmaRibbon(candles).value;
            && |r.series| == 8 && (forall j :: 0 <= j < 8 ==> v < |r.series[j].points| && r.series[j].points[v].value.Num?)
            && r.series[k].points[v].time == candles[54 + v].time
            && StateTells(r.series[k].points[v].state, DrawnValues(r, v), candles[54 + v].close)
  {
    hide BuildEmaRibbon, StateOf, SamplesAt, StateTells, LatestValues;
    DrawnColumn(candles, v);
    StateOfTells(Closes(candles), 54 + v);
  }

  predicate WholeHundredths(x: real) {
    (x * 100.0).Floor as real == x * 100.0
  }

  lemma RoundedNear(x: real)
    ensures x - 0.005 <= RoundHalfUp(x) <= x + 0.005 && WholeHundredths(RoundHalfUp(x))
  {
    assert RoundHalfUp(x) * 100.0 == (x * 100.0 + 0.5).Floor as real;
  }

  /** The latest averages, the spread and the relation, told from the last drawn values: the spread is the
      largest difference in percent of the close, to two decimals, and the price is above or below
      exactly when the close is strictly beyond all eight. */
  lemma HeadlineExactly(candles: seq<Candle>)
    requires |candles| >= 55
    ensures var r, last := BuildEmaRibbon(candles).value, |candles| - 55;
            && |r.series| == 8 && (forall j :: 0 <= j < 8 ==> last < |r.series[j].points| && r.series[j].points[last].value.Num?)
            && var v, close := DrawnValues(r, last), candles[|candles| - 1].close;
               && StateTells(r.state, v, close)
               && (close == 0.0 ==> r.spreadPct == 0.0)
               && (close != 0.0 ==>
                     && WholeHundredths(r.spreadPct)
                     && WithinPercent(v, r.spreadPct + 0.005, close)
                     && (forall d :: WithinPercent(v, d, close) ==> r.spreadPct - 0.005 <= d))
               && (r.priceRelation == Above <==> forall k :: 0 <= k < 8 ==> close > v[k])
               && (r.priceRelation == Below <==> forall k :: 0 <= k < 8 ==> close < v[k])
  {
    hide StateOf, SamplesAt, StateTells, LatestValues, SpreadPct, WithinPercent, Relation, DrawnValues;
    var last := |candles| - 55;
    DrawnColumn(candles, last);
    StateOfTells(Closes(candles), 54 + last);
    var v, close := LatestValues(Closes(candles), 54 + last), candles[|candles| - 1].close;
    HeadlineParts(candles);
    hide BuildEmaRibbon;
    RelationTells(v, close);
    if close != 0.0 {
      var exact := SpreadPct(v, close);
      RoundedNear(exact);
      SpreadIsWidth(v, close, RoundHalfUp(exact) + 0.005);
      forall d | WithinPercent(v, d, close) ensures RoundHalfUp(exact) - 0.005 <= d {
        SpreadIsWidth(v, close, d);
      }
    }
  }

  lemma HeadlineParts(candles: seq<Candle>)
    requires |candles| >= 55
    ensures var r, xs, last := BuildEmaRibbon(candles).value, Closes(candles), |candles| - 1;
            && r.state == StateOf(SamplesAt(xs, last), xs[last])
            && r.priceRelation == Relation(LatestValues(xs, last), xs[last])
            && r.spreadPct == if xs[last] == 0.0 then 0.0 else RoundHalfUp(SpreadPct(LatestValues(xs, last), xs[last]))
  {
    hide StateOf, SamplesAt, EmaAt, SpreadPct, Relation;
  }

  lemma RelationTells(v: seq<real>, close: real)
    requires |v| == 8
    ensures Relation(v, close) == Above <==> forall k :: 0 <= k < 8 ==> close > v[k]
    ensures Relation(v, close) == Below <==> forall k :: 0 <= k < 8 ==> close < v[k]
  {
    var hi :| 0 <= hi < |v| && v[hi] == MaxOf(v);
    var lo :| 0 <= lo < |v| && v[lo] == MinOf(v);
    assert forall i :: 0 <= i < |v| ==> v[i] in v;
  }

  /** There is a ribbon exactly from 55 candles on. */
  lemma RibbonExistsExactly(candles: seq<Candle>)
    ensures BuildEmaRibbon(candles).Some? <==> |candles| >= 55
  {
    hide StateOf, SamplesAt, EmaSample, LatestValues, SpreadPct, Relation;
  }
}
