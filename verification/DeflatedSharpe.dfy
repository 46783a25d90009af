/**
 The Deflated Sharpe Ratio (research/validation/deflated_sharpe.py, lines 311-474)
 and the p-value the retrospective gates on (scripts/retrospective_dsr.py, 263-295).
 */
module DeflatedSharpe {
  import opened RealArithmetic
  import opened Wrappers
  import opened Moments

  /** The ValueErrors the computation can raise. */
  datatype DsrError = TooFewReturns | NonPositiveVariance | TooFewTrials | NegativeVarianceSr

  const EULER_MASCHERONI := 0.5772156649015329
  const EULER_NUMBER := 2.718281828459045

  /** Variance of the Sharpe estimator: 1 - skew*SR + ((kurt - 1)/4)*SR^2. */
  function VarianceTerm(sr: real, skew: real, kurt: real): real {
    1.0 - skew * sr + ((kurt - 1.0) / 4.0) * (sr * sr)
  }

  function ProbabilisticSharpe(sr: real, benchmark: real, n: int, skew: real, kurt: real, num: Numerics)
    : (r: Result<real, DsrError>)
    requires num.Ideal()
  {
    if n < 2 then Failure(TooFewReturns) else
    var variance := VarianceTerm(sr, skew, kurt);
    if variance <= 0.0 then Failure(NonPositiveVariance) else
    assert num.sqrt(variance) * num.sqrt(variance) == variance;
    var z := (sr - benchmark) * num.sqrt((n - 1) as real) / num.sqrt(variance);
    Success(num.cdf(z))
  }

  /** The bracket of the expected maximum of K standard normal draws. */
  function MaxOrderTerm(k: int, num: Numerics): real
    requires 2 <= k
  {
    (1.0 - EULER_MASCHERONI) * num.ppf(TopQuantile(k as real))
      + EULER_MASCHERONI * num.ppf(TopQuantile((k as real) * EULER_NUMBER))
  }

  function TopQuantile(x: real): real
    requires 0.0 < x
  {
    1.0 - 1.0 / x
  }

  function ExpectedMaxSharpe(varianceSr: real, k: int, num: Numerics): Result<real, DsrError> {
    if k < 1 then Failure(TooFewTrials)
    else if varianceSr < 0.0 then Failure(NegativeVarianceSr)
    else if k == 1 then Success(0.0)
    else Success(num.sqrt(varianceSr) * MaxOrderTerm(k, num))
  }

  function DeflatedSharpeRatio(sr: real, varianceSr: real, k: int, n: int, skew: real, kurt: real, num: Numerics)
    : Result<real, DsrError>
    requires num.Ideal()
  {
    match ExpectedMaxSharpe(varianceSr, k, num)
    case Failure(e) => Failure(e)
    case Success(srStar) => ProbabilisticSharpe(sr, srStar, n, skew, kurt, num)
  }

  /** The deflated Sharpe ratio of a return series; an error is one of the source's ValueErrors. */
  function SeriesDsr(xs: seq<real>, k: int, varianceSr: real, num: Numerics): Result<real, DsrError>
    requires num.Ideal()
  {
    DeflatedSharpeRatio(SampleSharpe(xs, num), varianceSr, k, |xs|, SampleSkewness(xs, num), SampleKurtosis(xs), num)
  }

  /** `_dsr_p_value`: the worst p-value, 1, stands for every uncomputable case. */
  function DsrPValue(xs: seq<real>, k: int, varianceSr: real, num: Numerics): real
    requires num.Ideal()
  {
    if |xs| < 2 then 1.0 else
    match SeriesDsr(xs, k, varianceSr, num)
    case Failure(_) => 1.0
    case Success(dsr) => 1.0 - dsr
  }

  /** What the ratio is: the distribution function at a test statistic whose square is the squared
      excess Sharpe times n - 1 over the variance term, and whose sign is that of the excess. */
  lemma PsrIsTheTestStatistic(sr: real, benchmark: real, n: int, skew: real, kurt: real, num: Numerics)
    requires num.Ideal() && 2 <= n && 0.0 < VarianceTerm(sr, skew, kurt)
    ensures exists z: real ::
              && ProbabilisticSharpe(sr, benchmark, n, skew, kurt, num) == Success(num.cdf(z))
              && (z * z) * VarianceTerm(sr, skew, kurt) == ((sr - benchmark) * (sr - benchmark)) * ((n - 1) as real)
              && (0.0 < z <==> benchmark < sr)
  {
    hide *;
    PsrIs(sr, benchmark, n, skew, kurt, num);
    var z := TestStatistic(sr, benchmark, n, skew, kurt, num);
    StatisticSquared(sr, benchmark, n, skew, kurt, num);
    assert ProbabilisticSharpe(sr, benchmark, n, skew, kurt, num) == Success(num.cdf(z));
  }

  function TestStatistic(sr: real, benchmark: real, n: int, skew: real, kurt: real, num: Numerics): real
    requires num.Ideal() && 2 <= n && 0.0 < VarianceTerm(sr, skew, kurt)
  {
    SqrtPositive(num, VarianceTerm(sr, skew, kurt));
    (sr - benchmark) * num.sqrt((n - 1) as real) / num.sqrt(VarianceTerm(sr, skew, kurt))
  }

  lemma StatisticSquared(sr: real, benchmark: real, n: int, skew: real, kurt: real, num: Numerics)
    requires num.Ideal() && 2 <= n && 0.0 < VarianceTerm(sr, skew, kurt)
    ensures var z := TestStatistic(sr, benchmark, n, skew, kurt, num);
            && (z * z) * VarianceTerm(sr, skew, kurt) == ((sr - benchmark) * (sr - benchmark)) * ((n - 1) as real)
            && (0.0 < z <==> benchmark < sr)
  {
    hide VarianceTerm;
    var variance := VarianceTerm(sr, skew, kurt);
    var scale, root := num.sqrt((n - 1) as real), num.sqrt(variance);
    var z := (sr - benchmark) * scale / root;
    assert z == TestStatistic(sr, benchmark, n, skew, kurt, num);
    hide *;
    QuotientSign(sr - benchmark, scale, root);
    DivTimes((sr - benchmark) * scale, root);
  }

  lemma PsrIs(sr: real, benchmark: real, n: int, skew: real, kurt: real, num: Numerics)
    requires num.Ideal() && 2 <= n && 0.0 < VarianceTerm(sr, skew, kurt)
    ensures ProbabilisticSharpe(sr, benchmark, n, skew, kurt, num)
         == Success(num.cdf(TestStatistic(sr, benchmark, n, skew, kurt, num)))
  {
    hide VarianceTerm;
  }

  /** The benchmark lies the Euler-Mascheroni fraction of the way from the 1 - 1/K quantile to the
      1 - 1/(K*e) quantile of the trials' Sharpe distribution. */
  lemma BenchmarkBetweenQuantiles(num: Numerics, v: real, k: int)
    requires num.Ideal() && 0.0 <= v && 2 <= k && ExpectedMaxSharpe(v, k, num).Success?
    ensures var expected := ExpectedMaxSharpe(v, k, num).value;
            var low := num.sqrt(v) * num.ppf(1.0 - 1.0 / (k as real));
            var high := num.sqrt(v) * num.ppf(1.0 - 1.0 / ((k as real) * EULER_NUMBER));
            low <= expected <= high && expected - low == EULER_MASCHERONI * (high - low)
  {
    var x, y := k as real, (k as real) * EULER_NUMBER;
    TopQuantileMonotone(x, y);
    var p, q := num.ppf(TopQuantile(x)), num.ppf(TopQuantile(y));
    PpfMonotone(num, TopQuantile(x), TopQuantile(y));
    var sd := num.sqrt(v);
    assert TopQuantile(x) == 1.0 - 1.0 / x && TopQuantile(y) == 1.0 - 1.0 / y;
    Weighted(sd, p, q, sd * p, sd * q, ExpectedMaxSharpe(v, k, num).value);
  }

  lemma Weighted(sd: real, p: real, q: real, low: real, high: real, expected: real)
    requires 0.0 <= sd && p <= q && low == sd * p && high == sd * q
    requires expected == sd * ((1.0 - EULER_MASCHERONI) * p + EULER_MASCHERONI * q)
    ensures low <= expected <= high && expected - low == EULER_MASCHERONI * (high - low)
  {
    assert expected - low == EULER_MASCHERONI * (high - low);
    ScaledNonNegative(sd, q - p, high - low);
  }

  // ----- the variance guard ---------------------------------------------------

  /** The variance term of a return series at any Sharpe `sr`. */
  function SeriesVarianceTerm(xs: seq<real>, sr: real, num: Numerics): real
    requires num.Ideal()
  {
    VarianceTerm(sr, SampleSkewness(xs, num), SampleKurtosis(xs))
  }

  /** The bound claimed for moment-consistent inputs, for every series and every Sharpe. */
  lemma VarianceTermBound(xs: seq<real>, sr: real, num: Numerics)
    requires num.Ideal()
    ensures var half := 1.0 - SampleSkewness(xs, num) * sr / 2.0;
            SeriesVarianceTerm(xs, sr, num) >= half * half >= 0.0
  {
    hide SampleSkewness, SampleKurtosis;
    var skew, kurt := SampleSkewness(xs, num), SampleKurtosis(xs);
    KurtosisDominatesSkewness(xs, num);
    SquareNonNegative(sr);
    ScaledNonNegative((kurt - 1.0 - skew * skew) / 4.0, sr * sr, ((kurt - 1.0 - skew * skew) / 4.0) * (sr * sr));
    SquareNonNegative(1.0 - skew * sr / 2.0);
  }

  /** So the guard never sees a negative term, and fires exactly at a double equality. */
  lemma GuardFiresExactly(xs: seq<real>, sr: real, num: Numerics)
    requires num.Ideal()
    ensures var skew := SampleSkewness(xs, num);
            SeriesVarianceTerm(xs, sr, num) <= 0.0
            <==> skew * sr == 2.0 && SampleKurtosis(xs) == 1.0 + skew * skew
  {
    hide SampleSkewness, SampleKurtosis;
    var skew, kurt := SampleSkewness(xs, num), SampleKurtosis(xs);
    var half, excess := 1.0 - skew * sr / 2.0, (kurt - 1.0 - skew * skew) / 4.0;
    VarianceTermBound(xs, sr, num);
    if SeriesVarianceTerm(xs, sr, num) <= 0.0 {
      assert half * half == 0.0;
      if half != 0.0 { ProductZero(half, half); }
      assert skew * sr == 2.0;
      assert excess * (sr * sr) == 0.0;
      if sr * sr == 0.0 { ProductZero(sr, sr); }
      ProductZero(excess, sr * sr);
    }
  }

  lemma RootUnique(a: real, b: real)
    requires 0.0 <= a && 0.0 <= b && a * a == b * b
    ensures a == b
  {
    if a != b {
      assert (a - b) * (a + b) == 0.0;
      ProductZero(a + b, a - b);
    }
  }

  /** Over the ideal reals the boundary is reached: on these four irrational returns, with the Sharpe
      taken from the same returns, the variance term is exactly zero and the p-value is the worst one.
      Module RationalReturns shows that no fractions reach it. */
  lemma GuardReachable(num: Numerics)
    requires num.Ideal()
    ensures var a := num.sqrt(3.0) / 2.0 - 0.25; var xs := [a, a, a, a + 1.0];
            && SeriesVarianceTerm(xs, SampleSharpe(xs, num), num) == 0.0
            && DsrPValue(xs, 1, 0.0, num) == 1.0
  {
    var s := num.sqrt(3.0);
    assert s * s == 3.0 && 0.0 <= s;
    var a := s / 2.0 - 0.25;
    var xs := [a, a, a, a + 1.0];
    FourReturns(xs, a);
    FourReturnsStatistics(xs, s, num);
    GuardFiresExactly(xs, s, num);
    VarianceTermBound(xs, s, num);
  }

  lemma {:induction false} FourReturnsStatistics(xs: seq<real>, s: real, num: Numerics)
    requires num.Ideal() && |xs| == 4 && s * s == 3.0 && 0.0 <= s
    requires Mean(xs) == s / 2.0 && PowerSum(xs, Mean(xs), 2) == 0.75
    requires CentralMoment(xs, 2) == 0.1875 && CentralMoment(xs, 3) == 0.09375 && CentralMoment(xs, 4) == 0.08203125
    ensures SampleSharpe(xs, num) == s
    ensures SampleSkewness(xs, num) * s == 2.0
    ensures SampleKurtosis(xs) == 1.0 + SampleSkewness(xs, num) * SampleSkewness(xs, num)
  {
    hide CentralMoment, Mean, PowerSum;
    RootOf(num, 0.25, 0.5);
    assert (s / 4.0) * (s / 4.0) == 0.1875;
    RootOf(num, 0.1875, s / 4.0);
    assert SampleSharpe(xs, num) == s;
    var skew := SampleSkewness(xs, num);
    var den := 0.1875 * (s / 4.0);
    assert den != 0.0;
    assert skew == 0.09375 / den;
    DivTimes(0.09375, den);
    assert skew * s == 2.0;
    assert SampleKurtosis(xs) == 7.0 / 3.0;
    SquareOfProduct(skew, s);
  }

  lemma SquareOfProduct(a: real, b: real)
    ensures (a * b) * (a * b) == (a * a) * (b * b)
  {
  }

  lemma RootOf(num: Numerics, x: real, root: real)
    requires num.Ideal() && 0.0 <= x && 0.0 <= root && root * root == x
    ensures num.sqrt(x) == root
  {
    RootUnique(num.sqrt(x), root);
  }

  lemma FourReturns(xs: seq<real>, a: real)
    requires xs == [a, a, a, a + 1.0]
    ensures Mean(xs) == a + 0.25
    ensures PowerSum(xs, a + 0.25, 2) == 0.75
    ensures CentralMoment(xs, 2) == 0.1875 && CentralMoment(xs, 3) == 0.09375 && CentralMoment(xs, 4) == 0.08203125
  {
    assert xs[1..] == [a, a, a + 1.0] && xs[1..][1..] == [a, a + 1.0];
    assert xs[1..][1..][1..] == [a + 1.0] && xs[1..][1..][1..][1..] == [];
    assert Sum(xs[1..][1..][1..]) == (a + 1.0) + Sum(xs[1..][1..][1..][1..]);
    assert Sum(xs[1..][1..]) == a + Sum(xs[1..][1..][1..]);
    assert Sum(xs) == 4.0 * a + 1.0;
    var c := a + 0.25;
    PowerUnfold(-0.25);
    PowerUnfold(0.75);
    forall k: nat
      ensures PowerSum(xs, c, k) == 3.0 * Power(-0.25, k) + Power(0.75, k)
    {
      assert PowerSum(xs[1..][1..][1..], c, k) == Power(0.75, k) + PowerSum(xs[1..][1..][1..][1..], c, k);
      assert PowerSum(xs[1..][1..], c, k) == Power(-0.25, k) + PowerSum(xs[1..][1..][1..], c, k);
    }
  }

  // ----- deflation is monotone ----------------------------------------------------

  lemma SqrtMonotone(num: Numerics, x: real, y: real)
    requires num.Ideal() && 0.0 <= x <= y
    ensures 0.0 <= num.sqrt(x) <= num.sqrt(y)
  {
    var a, b := num.sqrt(x), num.sqrt(y);
    if a > b {
      ProductPositive(a - b, a + b, a * a - b * b);
    }
  }

  lemma SqrtPositive(num: Numerics, x: real)
    requires num.Ideal() && 0.0 < x
    ensures 0.0 < num.sqrt(x)
  {
    var root := num.sqrt(x);
    assert 0.0 <= root && root * root == x;
  }

  lemma CdfMonotone(num: Numerics, x: real, y: real)
    requires num.Ideal() && x <= y
    ensures num.cdf(x) <= num.cdf(y)
  {
    if x < y { assert num.cdf(x) < num.cdf(y); }
  }

  lemma PpfMonotone(num: Numerics, p: real, q: real)
    requires num.Ideal() && 0.0 < p <= q < 1.0
    ensures num.ppf(p) <= num.ppf(q)
  {
    assert num.cdf(num.ppf(p)) == p && num.cdf(num.ppf(q)) == q;
  }

  lemma TopQuantileMonotone(x: real, y: real)
    requires 2.0 <= x <= y
    ensures 0.5 <= TopQuantile(x) <= TopQuantile(y) < 1.0
  {
  }

  lemma MaxOrderTermMonotone(num: Numerics, k1: int, k2: int)
    requires num.Ideal() && 2 <= k1 <= k2
    ensures 0.0 <= MaxOrderTerm(k1, num) <= MaxOrderTerm(k2, num)
  {
    var x1, x2 := k1 as real, k2 as real;
    TopQuantileMonotone(x1, x2);
    TopQuantileMonotone(x1 * EULER_NUMBER, x2 * EULER_NUMBER);
    PpfMonotone(num, TopQuantile(x1), TopQuantile(x2));
    PpfMonotone(num, TopQuantile(x1 * EULER_NUMBER), TopQuantile(x2 * EULER_NUMBER));
  }

  /** More trials or more cross-trial variance never lowers the benchmark. */
  lemma ExpectedMaxSharpeMonotone(num: Numerics, v1: real, v2: real, k1: int, k2: int)
    requires num.Ideal() && 0.0 <= v1 <= v2 && 1 <= k1 <= k2
    ensures ExpectedMaxSharpe(v1, k1, num).Success? && ExpectedMaxSharpe(v2, k2, num).Success?
    ensures 0.0 <= ExpectedMaxSharpe(v1, k1, num).value <= ExpectedMaxSharpe(v2, k2, num).value
  {
    hide MaxOrderTerm;
    SqrtMonotone(num, v1, v2);
    if 2 <= k1 {
      MaxOrderTermMonotone(num, k1, k2);
      ProductMonotone(num.sqrt(v1), num.sqrt(v2), MaxOrderTerm(k1, num), MaxOrderTerm(k2, num),
        num.sqrt(v1) * MaxOrderTerm(k1, num), num.sqrt(v2) * MaxOrderTerm(k2, num));
    } else if 2 <= k2 {
      MaxOrderTermMonotone(num, k2, k2);
      ProductMonotone(0.0, num.sqrt(v2), 0.0, MaxOrderTerm(k2, num), 0.0, num.sqrt(v2) * MaxOrderTerm(k2, num));
    }
  }

  /** A higher benchmark never raises the probabilistic Sharpe ratio. */
  lemma BenchmarkAntitone(num: Numerics, sr: real, low: real, high: real, n: int, skew: real, kurt: real)
    requires num.Ideal() && low <= high && 2 <= n && 0.0 < VarianceTerm(sr, skew, kurt)
    ensures ProbabilisticSharpe(sr, low, n, skew, kurt, num).value
         >= ProbabilisticSharpe(sr, high, n, skew, kurt, num).value
  {
    hide *;
    PsrIs(sr, low, n, skew, kurt, num);
    PsrIs(sr, high, n, skew, kurt, num);
    StatisticAntitone(num, sr, low, high, n, skew, kurt);
    CdfMonotone(num, TestStatistic(sr, high, n, skew, kurt, num), TestStatistic(sr, low, n, skew, kurt, num));
  }

  lemma StatisticAntitone(num: Numerics, sr: real, low: real, high: real, n: int, skew: real, kurt: real)
    requires num.Ideal() && low <= high && 2 <= n && 0.0 < VarianceTerm(sr, skew, kurt)
    ensures TestStatistic(sr, high, n, skew, kurt, num) <= TestStatistic(sr, low, n, skew, kurt, num)
  {
    hide VarianceTerm;
    SqrtPositive(num, VarianceTerm(sr, skew, kurt));
    SqrtPositive(num, (n - 1) as real);
  }

  /** For fixed returns the gated p-value is nondecreasing in K and in the Sharpe variance. */
  lemma PValueMonotone(xs: seq<real>, k1: int, k2: int, v1: real, v2: real, num: Numerics)
    requires num.Ideal() && 1 <= k1 <= k2 && 0.0 <= v1 <= v2
    ensures 0.0 < DsrPValue(xs, k1, v1, num) <= DsrPValue(xs, k2, v2, num) <= 1.0
  {
    hide SampleSharpe, SampleSkewness, SampleKurtosis, VarianceTerm, ExpectedMaxSharpe;
    ExpectedMaxSharpeMonotone(num, v1, v2, k1, k2);
    var sr, skew, kurt := SampleSharpe(xs, num), SampleSkewness(xs, num), SampleKurtosis(xs);
    if 2 <= |xs| && 0.0 < VarianceTerm(sr, skew, kurt) {
      BenchmarkAntitone(num, sr, ExpectedMaxSharpe(v1, k1, num).value, ExpectedMaxSharpe(v2, k2, num).value, |xs|, skew,
        kurt);
    }
  }

  lemma QuotientSign(x: real, scale: real, root: real)
    requires 0.0 < scale && 0.0 < root
    ensures 0.0 < x * scale / root <==> 0.0 < x
    ensures x * scale / root == 0.0 <==> x == 0.0
  {
    var y := x * scale;
    assert 0.0 < y <==> 0.0 < x;
    assert y == 0.0 <==> x == 0.0;
    DivTimes(y, root);
    var q := y / root;
    assert q * root == y;
  }

  /** What p < 1/2 means: the p-value is computable and the observed Sharpe beats the maximum
      that K zero-edge trials would be expected to show. */
  lemma PValueBelowHalf(xs: seq<real>, k: int, v: real, num: Numerics)
    requires num.Ideal() && 1 <= k && 0.0 <= v
    ensures ExpectedMaxSharpe(v, k, num).Success?
    ensures DsrPValue(xs, k, v, num) < 0.5
       <==> && 2 <= |xs|
            && 0.0 < SeriesVarianceTerm(xs, SampleSharpe(xs, num), num)
            && ExpectedMaxSharpe(v, k, num).value < SampleSharpe(xs, num)
  {
    hide SampleSharpe, SampleSkewness, SampleKurtosis, VarianceTerm, ExpectedMaxSharpe;
    ExpectedMaxSharpeMonotone(num, v, v, k, k);
    var sr, skew, kurt := SampleSharpe(xs, num), SampleSkewness(xs, num), SampleKurtosis(xs);
    if 2 <= |xs| && 0.0 < VarianceTerm(sr, skew, kurt) {
      var root := num.sqrt(VarianceTerm(sr, skew, kurt));
      var scale := num.sqrt((|xs| - 1) as real);
      SqrtPositive(num, VarianceTerm(sr, skew, kurt));
      SqrtPositive(num, (|xs| - 1) as real);
      var edge := sr - ExpectedMaxSharpe(v, k, num).value;
      QuotientSign(edge, scale, root);
      var z := edge * scale / root;
      if 0.0 < z { assert num.cdf(0.0) < num.cdf(z); } else { CdfMonotone(num, z, 0.0); }
    }
  }
}
