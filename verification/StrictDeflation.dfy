/**
 When more trials or more variance make the p-value strictly worse, and what the p-value is
 (research/validation/deflated_sharpe.py, 311-474; scripts/retrospective_dsr.py, 263-295).
 */
module StrictDeflation {
  import opened RealArithmetic
  import opened Wrappers
  import opened Moments
  import opened DeflatedSharpe

  lemma CdfStrict(num: Numerics, x: real, y: real)
    requires num.Ideal()
    ensures num.cdf(x) < num.cdf(y) <==> x < y
  {
    if y <= x { CdfMonotone(num, y, x); }
  }

  lemma PpfStrict(num: Numerics, p: real, q: real)
    requires num.Ideal() && 0.0 < p < q < 1.0
    ensures num.ppf(p) < num.ppf(q)
  {
    CdfStrict(num, num.ppf(p), num.ppf(q));
  }

  lemma TopQuantileStrict(x: real, y: real)
    requires 2.0 <= x < y
    ensures 0.5 <= TopQuantile(x) < TopQuantile(y) < 1.0
  {
  }

  /** The expected maximum of K draws grows strictly with K, from zero at one draw. */
  lemma MaxOrderTermStrict(num: Numerics, k1: int, k2: int)
    requires num.Ideal() && 1 <= k1 < k2
    ensures 0.0 < MaxOrderTerm(k2, num)
    ensures 2 <= k1 ==> MaxOrderTerm(k1, num) < MaxOrderTerm(k2, num)
  {
    var x, y := k1 as real, k2 as real;
    TopQuantileMonotone(y, y);
    TopQuantileStrict(2.0, y * EULER_NUMBER);
    MedianIsZero(num);
    PpfMonotone(num, 0.5, TopQuantile(y));
    PpfStrict(num, 0.5, TopQuantile(y * EULER_NUMBER));
    if 2 <= k1 {
      TopQuantileStrict(x, y);
      TopQuantileStrict(x * EULER_NUMBER, y * EULER_NUMBER);
      PpfStrict(num, TopQuantile(x), TopQuantile(y));
      PpfStrict(num, TopQuantile(x * EULER_NUMBER), TopQuantile(y * EULER_NUMBER));
    }
  }

  lemma MedianIsZero(num: Numerics)
    requires num.Ideal()
    ensures num.ppf(0.5) == 0.0 && TopQuantile(2.0) == 0.5
  {
    CdfStrict(num, num.ppf(0.5), 0.0);
    CdfStrict(num, 0.0, num.ppf(0.5));
  }

  lemma SqrtStrict(num: Numerics, x: real, y: real)
    requires num.Ideal() && 0.0 <= x < y
    ensures 0.0 <= num.sqrt(x) < num.sqrt(y)
  {
    SqrtMonotone(num, x, y);
    if num.sqrt(x) == num.sqrt(y) { SameSquares(num.sqrt(x), num.sqrt(y), x, y); }
  }

  lemma SameSquares(a: real, b: real, aa: real, bb: real)
    requires a == b && a * a == aa && b * b == bb
    ensures aa == bb
  {
  }

  lemma StrictProduct(a: real, b: real, m: real, n: real, am: real, bn: real)
    requires 0.0 <= a <= b && 0.0 <= m <= n && am == a * m && bn == b * n
    ensures am < bn <==> 0.0 < b && 0.0 < n && (a < b || m < n)
  {
    assert bn - am == (b - a) * n + a * (n - m);
    if a < b && 0.0 < n {
      ProductPositive(b - a, n, (b - a) * n);
      ScaledNonNegative(a, n - m, a * (n - m));
    } else if a == b && 0.0 < b && m < n {
      ProductPositive(a, n - m, a * (n - m));
    } else if a == b && m == n {
      assert (b - a) * n == 0.0 && a * (n - m) == 0.0;
    }
  }

  /** The benchmark rises strictly exactly if there are trials and variance and one of them rises. */
  lemma BenchmarkRisesIff(num: Numerics, v1: real, v2: real, k1: int, k2: int)
    requires num.Ideal() && 0.0 <= v1 <= v2 && 1 <= k1 <= k2
    ensures ExpectedMaxSharpe(v1, k1, num).Success? && ExpectedMaxSharpe(v2, k2, num).Success?
    ensures ExpectedMaxSharpe(v1, k1, num).value < ExpectedMaxSharpe(v2, k2, num).value
       <==> 2 <= k2 && 0.0 < v2 && (k1 < k2 || v1 < v2)
  {
    hide MaxOrderTerm;
    if 2 <= k2 {
      var m1, m2 := if k1 == 1 then 0.0 else MaxOrderTerm(k1, num), MaxOrderTerm(k2, num);
      MaxOrderTermStrict(num, 1, k2);
      if k1 < k2 { MaxOrderTermStrict(num, k1, k2); }
      if 2 <= k1 { MaxOrderTermStrict(num, 1, k1); }
      SqrtMonotone(num, v1, v2);
      if v1 < v2 { SqrtStrict(num, v1, v2); }
      if 0.0 < v2 { SqrtPositive(num, v2); } else { SqrtOfZero(num); }
      StrictProduct(num.sqrt(v1), num.sqrt(v2), m1, m2, num.sqrt(v1) * m1, num.sqrt(v2) * m2);
      TimesZeroIsZero(num.sqrt(v1));
    }
  }

  lemma SqrtOfZero(num: Numerics)
    requires num.Ideal()
    ensures num.sqrt(0.0) == 0.0
  {
    RootOf(num, 0.0, 0.0);
  }

  lemma TimesZeroIsZero(a: real)
    ensures a * 0.0 == 0.0
  {
  }

  lemma StatisticFalls(num: Numerics, sr: real, low: real, high: real, n: int, skew: real, kurt: real)
    requires num.Ideal() && 2 <= n && 0.0 < VarianceTerm(sr, skew, kurt)
    ensures TestStatistic(sr, high, n, skew, kurt, num) < TestStatistic(sr, low, n, skew, kurt, num) <==> low < high
  {
    hide VarianceTerm;
    var scale, root := num.sqrt((n - 1) as real), num.sqrt(VarianceTerm(sr, skew, kurt));
    SqrtPositive(num, VarianceTerm(sr, skew, kurt));
    SqrtPositive(num, (n - 1) as real);
    ScaledOrder(sr - high, sr - low, scale, root, (sr - high) * scale, (sr - low) * scale);
  }

  lemma ScaledOrder(a: real, b: real, scale: real, root: real, as': real, bs: real)
    requires 0.0 < scale && 0.0 < root && as' == a * scale && bs == b * scale
    ensures as' / root < bs / root <==> a < b
  {
    assert as' < bs <==> a < b;
  }

  /** For computable returns, the p-value is strictly worse exactly if the benchmark rose: some variance,
      at least two trials, and more of one or the other. */
  lemma PValueRisesIff(xs: seq<real>, k1: int, k2: int, v1: real, v2: real, num: Numerics)
    requires num.Ideal() && 1 <= k1 <= k2 && 0.0 <= v1 <= v2
    requires 2 <= |xs| && 0.0 < SeriesVarianceTerm(xs, SampleSharpe(xs, num), num)
    ensures DsrPValue(xs, k1, v1, num) < DsrPValue(xs, k2, v2, num)
       <==> 2 <= k2 && 0.0 < v2 && (k1 < k2 || v1 < v2)
  {
    BenchmarkRisesIff(num, v1, v2, k1, k2);
    PValueIsTheTail(xs, k1, v1, num);
    PValueIsTheTail(xs, k2, v2, num);
    var sr, skew, kurt := SampleSharpe(xs, num), SampleSkewness(xs, num), SampleKurtosis(xs);
    hide SampleSharpe, SampleSkewness, SampleKurtosis, VarianceTerm, ExpectedMaxSharpe, DsrPValue, TestStatistic;
    var low, high := ExpectedMaxSharpe(v1, k1, num).value, ExpectedMaxSharpe(v2, k2, num).value;
    StatisticFalls(num, sr, low, high, |xs|, skew, kurt);
    CdfStrict(num, TestStatistic(sr, high, |xs|, skew, kurt, num), TestStatistic(sr, low, |xs|, skew, kurt, num));
  }

  /** What the p-value of computable returns is: the upper tail at the series' own test statistic against
      the benchmark of the trials, with the number of its own returns. */
  lemma PValueIsTheTail(xs: seq<real>, k: int, v: real, num: Numerics)
    requires num.Ideal() && 1 <= k && 0.0 <= v
    requires 2 <= |xs| && 0.0 < SeriesVarianceTerm(xs, SampleSharpe(xs, num), num)
    ensures ExpectedMaxSharpe(v, k, num).Success?
    ensures var sr, b := SampleSharpe(xs, num), ExpectedMaxSharpe(v, k, num).value;
            var z := TestStatistic(sr, b, |xs|, SampleSkewness(xs, num), SampleKurtosis(xs), num);
            && DsrPValue(xs, k, v, num) == 1.0 - num.cdf(z)
            && (z * z) * SeriesVarianceTerm(xs, sr, num) == ((sr - b) * (sr - b)) * ((|xs| - 1) as real)
            && (0.0 < z <==> b < sr)
  {
    hide SampleSharpe, SampleSkewness, SampleKurtosis, VarianceTerm, ExpectedMaxSharpe, TestStatistic;
    ExpectedMaxSharpeMonotone(num, v, v, k, k);
    var sr, b := SampleSharpe(xs, num), ExpectedMaxSharpe(v, k, num).value;
    PsrIs(sr, b, |xs|, SampleSkewness(xs, num), SampleKurtosis(xs), num);
    StatisticSquared(sr, b, |xs|, SampleSkewness(xs, num), SampleKurtosis(xs), num);
  }

  /** What cannot be computed, in the order of the source: no trials, a negative variance of the Sharpe ratios,
      fewer than two returns, returns whose variance term is zero. The p-value is 1 exactly then. */
  lemma UncomputableExactly(xs: seq<real>, k: int, v: real, num: Numerics)
    requires num.Ideal()
    ensures var dsr := SeriesDsr(xs, k, v, num);
            var degenerate := SeriesVarianceTerm(xs, SampleSharpe(xs, num), num) == 0.0;
            && (dsr == Failure(TooFewTrials) <==> k < 1)
            && (dsr == Failure(NegativeVarianceSr) <==> 1 <= k && v < 0.0)
            && (dsr == Failure(TooFewReturns) <==> 1 <= k && 0.0 <= v && |xs| < 2)
            && (dsr == Failure(NonPositiveVariance) <==> 1 <= k && 0.0 <= v && 2 <= |xs| && degenerate)
            && (DsrPValue(xs, k, v, num) == 1.0 <==> k < 1 || v < 0.0 || |xs| < 2 || degenerate)
  {
    hide SampleSharpe, SampleSkewness, SampleKurtosis, VarianceTerm, MaxOrderTerm;
    VarianceTermBound(xs, SampleSharpe(xs, num), num);
    if 1 <= k && 0.0 <= v && 2 <= |xs| && 0.0 < SeriesVarianceTerm(xs, SampleSharpe(xs, num), num) {
      PValueIsTheTail(xs, k, v, num);
    }
  }
}
