/** How far three-decimal rounding can pull the smoothed scores from exact smoothing. */
module StanceAccuracy {
  import opened Common
  import opened RealArithmetic
  import opened Rounding
  import opened Hysteresis
  import opened StanceRuns

  /** The smoothed value after sample i of a series. */
  function EmaSeries(arith: Arithmetic, alpha: real, xs: seq<real>, i: nat): real
    requires i < |xs|
  {
    if i == 0 then Ema(arith, alpha, None, xs[0])
    else Ema(arith, alpha, Some(EmaSeries(arith, alpha, xs, i - 1)), xs[i])
  }

  function LongScores(obs: seq<Observation>): seq<real> {
    seq(|obs|, i requires 0 <= i < |obs| => obs[i].longScore)
  }

  function ShortScores(obs: seq<Observation>): seq<real> {
    seq(|obs|, i requires 0 <= i < |obs| => obs[i].shortScore)
  }

  /** The largest distance rounding can accumulate: half a thousandth times (span + 1) / 2. */
  function DriftLimit(p: Params): real {
    0.00025 * (Max(p.emaSpan, 1.0) + 1.0)
  }

  lemma DriftBalancesRounding(p: Params)
    ensures Alpha(p) * DriftLimit(p) == 0.0005 && DriftLimit(p) >= 0.0005
  {
    var alpha, n := Alpha(p), Max(p.emaSpan, 1.0) + 1.0;
    assert alpha * n == 2.0;
    assert DriftLimit(p) == 0.00025 * n;
    Rescale(alpha, n);
  }

  lemma Rescale(alpha: real, n: real)
    requires alpha * n == 2.0
    ensures alpha * (0.00025 * n) == 0.0005
  {
  }

  /** The usual weights of a span: two parts of the new score to span - 1 parts of the old value. */
  lemma SpanWeights(p: Params, x: real, prev: real)
    ensures var span := Max(p.emaSpan, 1.0);
            Mix(Alpha(p), x, prev) == (2.0 * x + (span - 1.0) * prev) / (span + 1.0)
  {
    var n := Max(p.emaSpan, 1.0) + 1.0;
    var alpha := Alpha(p);
    assert alpha * n == 2.0;
    SpanProduct(alpha, n, x, prev);
    Divided(2.0 * x + (n - 2.0) * prev, n, Mix(alpha, x, prev));
  }

  lemma SpanProduct(alpha: real, n: real, x: real, prev: real)
    requires alpha * n == 2.0
    ensures Mix(alpha, x, prev) * n == 2.0 * x + (n - 2.0) * prev
  {
    assert alpha * x * n == alpha * n * x;
    assert (1.0 - alpha) * prev * n == n * prev - alpha * n * prev;
  }

  /** One step forgets a share of the old error that exactly makes room for one more rounding. */
  lemma DriftStep(alpha: real, limit: real, x: real, r: real, e: real, rounded: real)
    requires 0.0 < alpha <= 1.0 && alpha * limit == 0.0005 && -limit <= r - e <= limit
    requires Mix(alpha, x, r) - 0.0005 <= rounded <= Mix(alpha, x, r) + 0.0005
    ensures -limit <= rounded - Mix(alpha, x, e) <= limit
  {
    NonNegativeProduct(1.0 - alpha, limit - (r - e));
    NonNegativeProduct(1.0 - alpha, limit + (r - e));
    assert Mix(alpha, x, r) - Mix(alpha, x, e) == (1.0 - alpha) * (r - e);
    assert (1.0 - alpha) * (limit - (r - e)) == limit - 0.0005 - (1.0 - alpha) * (r - e);
    assert (1.0 - alpha) * (limit + (r - e)) == limit - 0.0005 + (1.0 - alpha) * (r - e);
  }

  /** Rounding error never compounds: over a series of any length the rounded value stays
      within the drift limit of the exact one. */
  lemma {:induction false} RoundingDrift(p: Params, xs: seq<real>, i: nat)
    requires i < |xs|
    ensures Abs(EmaSeries(Decimal, Alpha(p), xs, i) - EmaSeries(Exact, Alpha(p), xs, i)) <= DriftLimit(p)
  {
    var alpha := Alpha(p);
    DriftBalancesRounding(p);
    hide RoundAt, Alpha, DriftLimit, Mix;
    if i == 0 {
      RoundThousandthsError(Decimal, xs[0]);
    } else {
      RoundingDrift(p, xs, i - 1);
      var r, e := EmaSeries(Decimal, alpha, xs, i - 1), EmaSeries(Exact, alpha, xs, i - 1);
      RoundThousandthsError(Decimal, Mix(alpha, xs[i], r));
      DriftStep(alpha, DriftLimit(p), xs[i], r, e, EmaSeries(Decimal, alpha, xs, i));
    }
  }

  lemma Between(alpha: real, x: real, y: real, lo: real, hi: real)
    requires 0.0 <= alpha <= 1.0 && lo <= x <= hi && lo <= y <= hi
    ensures lo <= Mix(alpha, x, y) <= hi
  {
    NonNegativeProduct(alpha, x - lo);
    NonNegativeProduct(1.0 - alpha, y - lo);
    NonNegativeProduct(alpha, hi - x);
    NonNegativeProduct(1.0 - alpha, hi - y);
  }

  /** Smoothing never leaves the range of the samples; with rounding, this holds for every range
      whose ends are whole hundredths, as scores are. */
  lemma {:induction false} StaysInRange(arith: Arithmetic, p: Params, xs: seq<real>, i: nat, lo: real, hi: real)
    requires i < |xs| && forall j :: 0 <= j <= i ==> lo <= xs[j] <= hi
    requires arith == Decimal ==> Hundredths(lo) && Hundredths(hi)
    ensures lo <= EmaSeries(arith, Alpha(p), xs, i) <= hi
  {
    hide RoundAt, Hundredths, Alpha, Mix;
    var alpha := Alpha(p);
    if i == 0 {
      RoundedInRange(arith, xs[0], lo, hi);
    } else {
      StaysInRange(arith, p, xs, i - 1, lo, hi);
      var prev := EmaSeries(arith, alpha, xs, i - 1);
      Between(alpha, xs[i], prev, lo, hi);
      RoundedInRange(arith, Mix(alpha, xs[i], prev), lo, hi);
    }
  }

  lemma RoundedInRange(arith: Arithmetic, x: real, lo: real, hi: real)
    requires lo <= x <= hi
    requires arith == Decimal ==> Hundredths(lo) && Hundredths(hi)
    ensures lo <= Round(arith, x, 1000.0) <= hi
  {
    hide RoundAt, Hundredths;
    if arith == Decimal {
      RoundMonotone(arith, lo, x, 1000.0);
      RoundMonotone(arith, x, hi, 1000.0);
      HundredthsAreFixed(arith, lo);
      HundredthsAreFixed(arith, hi);
    }
  }

  /** On a run of new candles the machine's scores are exactly these smoothed series. */
  lemma {:induction false} MachineSmooths(m: Setup, obs: seq<Observation>, i: nat)
    requires i < |obs| && AllFresh(Unstarted, obs)
    ensures After(m, None, obs, i + 1).value.longEma == EmaSeries(m.arith, Alpha(m.params), LongScores(obs), i)
    ensures After(m, None, obs, i + 1).value.shortEma == EmaSeries(m.arith, Alpha(m.params), ShortScores(obs), i)
  {
    hide Round, RawStance;
    if i > 0 {
      MachineSmooths(m, obs, i - 1);
      AnchorFollowsState(m, None, obs, i);
      assert FreshAt(Unstarted, obs, i);
    }
  }

  /** On any run of new candles, the scores the code holds are within the drift limit of the
      scores the same run would hold in exact arithmetic. */
  lemma MachineDrift(m: Setup, obs: seq<Observation>, i: nat)
    requires 0 < i <= |obs| && AllFresh(Unstarted, obs)
    ensures var code := After(m.(arith := Decimal), None, obs, i).value;
            var ideal := After(m.(arith := Exact), None, obs, i).value;
            && Abs(code.longEma - ideal.longEma) <= DriftLimit(m.params)
            && Abs(code.shortEma - ideal.shortEma) <= DriftLimit(m.params)
  {
    hide After, EmaSeries;
    MachineSmooths(m.(arith := Decimal), obs, i - 1);
    MachineSmooths(m.(arith := Exact), obs, i - 1);
    RoundingDrift(m.params, LongScores(obs), i - 1);
    RoundingDrift(m.params, ShortScores(obs), i - 1);
  }
}
