/**
 Sums and sample moments of a return series, over exact reals
 (research/validation/deflated_sharpe.py, lines 190-308).

 The square root is a field of a `Numerics` value that is only known to satisfy
 its defining equation, so every result here holds for the real square root.
 */
module Moments {
  import opened RealArithmetic

  /** The transcendental functions the source takes from `math`. */
  datatype Numerics = Numerics(sqrt: real -> real, cdf: real -> real, ppf: real -> real) {

    /** What is assumed of them: `sqrt` is the non-negative root, `cdf` is a strictly
        increasing distribution function centred at 0, and `ppf` inverts it. */
    ghost predicate Ideal() {
      && (forall x :: 0.0 <= x ==> 0.0 <= sqrt(x) && sqrt(x) * sqrt(x) == x)
      && (forall x, y :: x < y ==> cdf(x) < cdf(y))
      && (forall x :: 0.0 < cdf(x) < 1.0)
      && (forall p :: 0.0 < p < 1.0 ==> cdf(ppf(p)) == p)
      && cdf(0.0) == 0.5
    }
  }

  function Sum(xs: seq<real>): real {
    if xs == [] then 0.0 else xs[0] + Sum(xs[1..])
  }

  function Mean(xs: seq<real>): real
    requires xs != []
  {
    Sum(xs) / (|xs| as real)
  }

  function Power(x: real, k: nat): real {
    if k == 0 then 1.0 else x * Power(x, k - 1)
  }

  /** The sum of (x - c)^k over the series. */
  function PowerSum(xs: seq<real>, c: real, k: nat): real {
    if xs == [] then 0.0 else Power(xs[0] - c, k) + PowerSum(xs[1..], c, k)
  }

  /** The k-th central moment, dividing by n (ddof = 0). */
  function CentralMoment(xs: seq<real>, k: nat): real
    requires xs != []
  {
    PowerSum(xs, Mean(xs), k) / (|xs| as real)
  }

  const DEGENERATE_DISPERSION_REL_TOL := 0.000000001

  /** Per-trade Sharpe ratio: mean over the ddof = 1 standard deviation. */
  function SampleSharpe(xs: seq<real>, num: Numerics): real
    requires num.Ideal()
  {
    if |xs| < 2 then 0.0 else
    var mean := Mean(xs);
    var variance := PowerSum(xs, mean, 2) / ((|xs| - 1) as real);
    if variance <= 0.0 then 0.0 else
    var std := num.sqrt(variance);
    if std <= Abs(mean) * DEGENERATE_DISPERSION_REL_TOL then 0.0
    else assert std * std == variance; mean / std
  }

  /** Population skewness. The source writes the denominator m2**1.5. */
  function SampleSkewness(xs: seq<real>, num: Numerics): real
    requires num.Ideal()
  {
    if |xs| < 3 then 0.0 else
    var m2 := CentralMoment(xs, 2);
    if m2 <= 0.0 then 0.0
    else assert num.sqrt(m2) * num.sqrt(m2) == m2; CentralMoment(xs, 3) / (m2 * num.sqrt(m2))
  }

  /** Raw (non-excess) population kurtosis. */
  function SampleKurtosis(xs: seq<real>): real {
    if |xs| < 4 then 3.0 else
    var m2 := CentralMoment(xs, 2);
    if m2 <= 0.0 then 3.0 else CentralMoment(xs, 4) / (m2 * m2)
  }

  // ----- power sums ---------------------------------------------------------

  lemma {:induction false} PowerUnfold(d: real)
    ensures Power(d, 1) == d
    ensures Power(d, 2) == d * d
    ensures Power(d, 3) == d * (d * d)
    ensures Power(d, 4) == (d * d) * (d * d)
  {
    assert Power(d, 1) == d * Power(d, 0);
    assert Power(d, 2) == d * Power(d, 1);
    assert Power(d, 3) == d * Power(d, 2);
    assert Power(d, 4) == d * Power(d, 3);
  }

  lemma {:induction false} CentredSumIsShifted(xs: seq<real>, c: real)
    ensures PowerSum(xs, c, 1) == Sum(xs) - (|xs| as real) * c
  {
    if xs != [] {
      CentredSumIsShifted(xs[1..], c);
      PowerUnfold(xs[0] - c);
      assert (|xs| as real) * c == (|xs[1..]| as real) * c + c;
    }
  }

  lemma {:induction false} DeviationsSumToZero(xs: seq<real>)
    requires xs != []
    ensures PowerSum(xs, Mean(xs), 1) == 0.0
  {
    CentredSumIsShifted(xs, Mean(xs));
    DivTimes(Sum(xs), |xs| as real);
  }

  /** The sum of (d^2 - a*d - b)^2 over the deviations d = x - c, written with power sums. */
  function SquaresOfQuadratic(xs: seq<real>, c: real, a: real, b: real): real {
    PowerSum(xs, c, 4) - 2.0 * a * PowerSum(xs, c, 3) + (a * a - 2.0 * b) * PowerSum(xs, c, 2)
      + 2.0 * a * b * PowerSum(xs, c, 1) + b * b * (|xs| as real)
  }

  lemma QuadraticSquareExpands(d: real, a: real, b: real)
    ensures (d * d) * (d * d) - 2.0 * a * (d * (d * d)) + (a * a - 2.0 * b) * (d * d) + 2.0 * a * b * d + b * b
         == (d * d - a * d - b) * (d * d - a * d - b)
  {
  }

  lemma {:induction false} SquaresOfQuadraticNonNegative(xs: seq<real>, c: real, a: real, b: real)
    ensures 0.0 <= SquaresOfQuadratic(xs, c, a, b)
  {
    if xs != [] {
      var d, rest := xs[0] - c, xs[1..];
      SquaresOfQuadraticNonNegative(rest, c, a, b);
      PowerUnfold(d);
      QuadraticSquareExpands(d, a, b);
      var q := d * d - a * d - b;
      assert 0.0 <= q * q;
      assert SquaresOfQuadratic(xs, c, a, b) == SquaresOfQuadratic(rest, c, a, b) + q * q by {
        var s1, s2, s3, s4 := PowerSum(rest, c, 1), PowerSum(rest, c, 2), PowerSum(rest, c, 3), PowerSum(rest, c, 4);
        assert |xs| as real == |rest| as real + 1.0;
        assert b * b * (|xs| as real) == b * b * (|rest| as real) + b * b;
        assert 2.0 * a * b * (d + s1) == 2.0 * a * b * d + 2.0 * a * b * s1;
        assert (a * a - 2.0 * b) * (d * d + s2) == (a * a - 2.0 * b) * (d * d) + (a * a - 2.0 * b) * s2;
        assert 2.0 * a * (d * (d * d) + s3) == 2.0 * a * (d * (d * d)) + 2.0 * a * s3;
      }
    }
  }

  /** Pearson's inequality in power sums about the mean: n*S4*S2 >= n*S3^2 + S2^3. */
  lemma {:induction false} PearsonPowerSums(xs: seq<real>)
    requires xs != []
    requires 0.0 < PowerSum(xs, Mean(xs), 2)
    ensures var c := Mean(xs); var n := |xs| as real;
            var s2, s3, s4 := PowerSum(xs, c, 2), PowerSum(xs, c, 3), PowerSum(xs, c, 4);
            n * (s4 * s2) >= n * (s3 * s3) + s2 * (s2 * s2)
  {
    var s2, s3 := PowerSum(xs, Mean(xs), 2), PowerSum(xs, Mean(xs), 3);
    DivTimes(s3, s2);
    DivTimes(s2, |xs| as real);
    PearsonWith(xs, s3 / s2, s2 / (|xs| as real));
  }

  lemma {:induction false} PearsonWith(xs: seq<real>, a: real, b: real)
    requires xs != []
    requires 0.0 < PowerSum(xs, Mean(xs), 2)
    requires a * PowerSum(xs, Mean(xs), 2) == PowerSum(xs, Mean(xs), 3)
    requires b * (|xs| as real) == PowerSum(xs, Mean(xs), 2)
    ensures var c := Mean(xs); var n := |xs| as real;
            var s2, s3, s4 := PowerSum(xs, c, 2), PowerSum(xs, c, 3), PowerSum(xs, c, 4);
            n * (s4 * s2) >= n * (s3 * s3) + s2 * (s2 * s2)
  {
    hide PowerSum, Mean;
    var c := Mean(xs);
    DeviationsSumToZero(xs);
    SquaresOfQuadraticNonNegative(xs, c, a, b);
    assert 2.0 * a * b * PowerSum(xs, c, 1) == 0.0;
    PearsonAlgebra(|xs| as real, PowerSum(xs, c, 2), PowerSum(xs, c, 3), PowerSum(xs, c, 4), a, b);
  }

  lemma PearsonAlgebra(n: real, s2: real, s3: real, s4: real, a: real, b: real)
    requires 0.0 < n && 0.0 < s2
    requires a * s2 == s3 && b * n == s2
    requires 0.0 <= s4 - 2.0 * a * s3 + (a * a - 2.0 * b) * s2 + b * b * n
    ensures n * (s4 * s2) >= n * (s3 * s3) + s2 * (s2 * s2)
  {
    var q := s4 - 2.0 * a * s3 + (a * a - 2.0 * b) * s2 + b * b * n;
    assert a * a * s2 == a * s3;
    assert b * b * n == b * s2;
    assert q == s4 - a * s3 - b * s2;
    assert 0.0 <= (n * s2) * q by { assert 0.0 <= n * s2; }
    assert (n * s2) * (a * s3) == n * (s3 * s3);
    assert (n * s2) * (b * s2) == s2 * (s2 * s2);
    assert (n * s2) * q == n * (s4 * s2) - n * (s3 * s3) - s2 * (s2 * s2);
  }

  // ----- kurtosis dominates skewness -----------------------------------------

  lemma {:induction false} PowerSumFromMoment(xs: seq<real>, k: nat)
    requires xs != []
    ensures PowerSum(xs, Mean(xs), k) == (|xs| as real) * CentralMoment(xs, k)
  {
    DivTimes(PowerSum(xs, Mean(xs), k), |xs| as real);
  }

  lemma PearsonMoments(xs: seq<real>)
    requires xs != [] && 0.0 < CentralMoment(xs, 2)
    ensures var m2, m3, m4 := CentralMoment(xs, 2), CentralMoment(xs, 3), CentralMoment(xs, 4);
            m4 * m2 >= m3 * m3 + m2 * (m2 * m2)
  {
    hide *;
    PowerSumFromMoment(xs, 2);
    PowerSumFromMoment(xs, 3);
    PowerSumFromMoment(xs, 4);
    ProductPositive(|xs| as real, CentralMoment(xs, 2), (|xs| as real) * CentralMoment(xs, 2));
    PearsonPowerSums(xs);
    ScaleOut(|xs| as real, CentralMoment(xs, 2), CentralMoment(xs, 3), CentralMoment(xs, 4),
      PowerSum(xs, Mean(xs), 2), PowerSum(xs, Mean(xs), 3), PowerSum(xs, Mean(xs), 4));
  }

  lemma ScaleOut(n: real, m2: real, m3: real, m4: real, s2: real, s3: real, s4: real)
    requires 0.0 < n && s2 == n * m2 && s3 == n * m3 && s4 == n * m4
    requires n * (s4 * s2) >= n * (s3 * s3) + s2 * (s2 * s2)
    ensures m4 * m2 >= m3 * m3 + m2 * (m2 * m2)
  {
    var cube := n * (n * n);
    assert 0.0 < n * n;
    assert 0.0 < cube;
    assert n * (s4 * s2) == cube * (m4 * m2);
    assert n * (s3 * s3) == cube * (m3 * m3);
    assert s2 * (s2 * s2) == cube * (m2 * (m2 * m2));
    assert cube * (m4 * m2 - m3 * m3 - m2 * (m2 * m2)) >= 0.0;
  }

  /** With three observations the raw kurtosis is always 3/2, whatever they are. */
  lemma ThreePointKurtosis(xs: seq<real>)
    requires |xs| == 3 && 0.0 < CentralMoment(xs, 2)
    ensures CentralMoment(xs, 4) == 1.5 * (CentralMoment(xs, 2) * CentralMoment(xs, 2))
  {
    var c := Mean(xs);
    var x, y, z := xs[0] - c, xs[1] - c, xs[2] - c;
    assert xs == [xs[0], xs[1], xs[2]];
    forall k: nat ensures PowerSum(xs, c, k) == Power(x, k) + Power(y, k) + Power(z, k) {
      assert xs[1..] == [xs[1], xs[2]];
      assert xs[1..][1..] == [xs[2]];
      assert xs[1..][1..][1..] == [];
      assert PowerSum(xs[1..][1..], c, k) == Power(z, k) + PowerSum(xs[1..][1..][1..], c, k);
    }
    PowerUnfold(x);
    PowerUnfold(y);
    PowerUnfold(z);
    DeviationsSumToZero(xs);
    assert x + y + z == 0.0;
    FourthPowersOfThree(x, y, z);
    var s2, s4 := PowerSum(xs, c, 2), PowerSum(xs, c, 4);
    assert 2.0 * s4 == s2 * s2;
    assert (s2 / 3.0) * (s2 / 3.0) == s2 * s2 / 9.0;
  }

  lemma FourthPowersOfThree(x: real, y: real, z: real)
    requires x + y + z == 0.0
    ensures 2.0 * ((x * x) * (x * x) + (y * y) * (y * y) + (z * z) * (z * z))
         == (x * x + y * y + z * z) * (x * x + y * y + z * z)
  {
    var w := -x - y;
    assert z == w;
    var p, q, r := x * x, x * y, y * y;
    assert z * z == p + 2.0 * q + r;
    assert q * q == p * r;
  }

  lemma SkewnessSquared(xs: seq<real>, num: Numerics)
    requires num.Ideal() && 3 <= |xs| && 0.0 < CentralMoment(xs, 2)
    ensures var m2, m3 := CentralMoment(xs, 2), CentralMoment(xs, 3);
            var skew := SampleSkewness(xs, num);
            (skew * skew) * (m2 * (m2 * m2)) == m3 * m3 && (0.0 < skew <==> 0.0 < m3) && (skew < 0.0 <==> m3 < 0.0)
  {
    hide CentralMoment;
    var m2, m3 := CentralMoment(xs, 2), CentralMoment(xs, 3);
    var root := num.sqrt(m2);
    assert root * root == m2;
    DivTimes(m3, m2 * root);
    SquareOfQuotient(SampleSkewness(xs, num), m2, root, m3);
    SignOfQuotient(SampleSkewness(xs, num), m2, root, m3);
  }

  lemma SignOfQuotient(skew: real, m2: real, root: real, m3: real)
    requires 0.0 < m2 && 0.0 <= root && root * root == m2 && skew * (m2 * root) == m3
    ensures (0.0 < skew <==> 0.0 < m3) && (skew < 0.0 <==> m3 < 0.0)
  {
    var d := m2 * root;
    if root == 0.0 { assert false; }
    ProductPositive(m2, root, d);
    if 0.0 < skew { ProductPositive(skew, d, m3); }
    if skew < 0.0 { ProductPositive(-skew, d, -m3); }
  }

  /** The kurtosis estimate is the fourth moment over the squared second; short or constant series get the
      normal's 3, and short or constant ones no skewness. */
  lemma KurtosisExactly(xs: seq<real>, num: Numerics)
    requires num.Ideal()
    ensures |xs| < 4 ==> SampleKurtosis(xs) == 3.0
    ensures |xs| < 3 ==> SampleSkewness(xs, num) == 0.0
    ensures 4 <= |xs| && 0.0 < CentralMoment(xs, 2) ==>
              SampleKurtosis(xs) * (CentralMoment(xs, 2) * CentralMoment(xs, 2)) == CentralMoment(xs, 4)
    ensures xs != [] && CentralMoment(xs, 2) <= 0.0 ==> SampleKurtosis(xs) == 3.0 && SampleSkewness(xs, num) == 0.0
  {
    hide CentralMoment;
    if 4 <= |xs| && 0.0 < CentralMoment(xs, 2) {
      var m2 := CentralMoment(xs, 2);
      ProductPositive(m2, m2, m2 * m2);
      DivTimes(CentralMoment(xs, 4), m2 * m2);
    }
  }

  lemma SquareOfQuotient(skew: real, m2: real, root: real, m3: real)
    requires root * root == m2 && skew * (m2 * root) == m3
    ensures (skew * skew) * (m2 * (m2 * m2)) == m3 * m3
  {
    var den := m2 * root;
    assert (skew * den) * (skew * den) == (skew * skew) * (den * den);
    assert den * den == (m2 * m2) * (root * root);
  }

  lemma MomentRatioBound(m2: real, m3: real, m4: real, kurt: real, t: real)
    requires 0.0 < m2 && m4 == kurt * (m2 * m2)
    requires m4 * m2 >= m3 * m3 + m2 * (m2 * m2)
    requires t * (m2 * (m2 * m2)) == m3 * m3
    ensures kurt >= 1.0 + t
  {
    var cube := m2 * (m2 * m2);
    ProductPositive(m2, m2, m2 * m2);
    ProductPositive(m2, m2 * m2, m2 * (m2 * m2));
    assert m4 * m2 == kurt * cube;
    CancelPositive(kurt, 1.0 + t, cube);
  }

  /** The claim the variance guard rests on: raw kurtosis is at least 1 + skewness^2, for
      every return series, including the short ones that get the default moments. */
  lemma KurtosisDominatesSkewness(xs: seq<real>, num: Numerics)
    requires num.Ideal()
    ensures SampleKurtosis(xs) >= 1.0 + SampleSkewness(xs, num) * SampleSkewness(xs, num)
  {
    var skew := SampleSkewness(xs, num);
    if |xs| < 3 || CentralMoment(xs, 2) <= 0.0 {
      assert skew == 0.0;
    } else {
      if |xs| == 3 {
        ThreePointKurtosis(xs);
        MomentRatio(xs, num, 1.5);
      } else {
        KurtosisTimesSquare(xs);
        MomentRatio(xs, num, SampleKurtosis(xs));
      }
    }
  }

  lemma KurtosisTimesSquare(xs: seq<real>)
    requires 4 <= |xs| && 0.0 < CentralMoment(xs, 2)
    ensures CentralMoment(xs, 4) == SampleKurtosis(xs) * (CentralMoment(xs, 2) * CentralMoment(xs, 2))
  {
    hide CentralMoment;
    QuotientBySquare(CentralMoment(xs, 4), CentralMoment(xs, 2));
  }

  lemma QuotientBySquare(m4: real, m2: real)
    requires 0.0 < m2
    ensures m2 * m2 != 0.0 && m4 == (m4 / (m2 * m2)) * (m2 * m2)
  {
    ProductPositive(m2, m2, m2 * m2);
    NonZeroQuotient(m4, m2 * m2);
  }

  lemma NonZeroQuotient(a: real, b: real)
    requires 0.0 < b
    ensures a == (a / b) * b
  {
  }

  lemma MomentRatio(xs: seq<real>, num: Numerics, kurt: real)
    requires num.Ideal() && 3 <= |xs| && 0.0 < CentralMoment(xs, 2)
    requires CentralMoment(xs, 4) == kurt * (CentralMoment(xs, 2) * CentralMoment(xs, 2))
    ensures kurt >= 1.0 + SampleSkewness(xs, num) * SampleSkewness(xs, num)
  {
    hide *;
    PearsonMoments(xs);
    SkewnessSquared(xs, num);
    var skew := SampleSkewness(xs, num);
    MomentRatioBound(CentralMoment(xs, 2), CentralMoment(xs, 3), CentralMoment(xs, 4), kurt, skew * skew);
  }

  lemma {:induction false} TwoReturns(x: real, y: real)
    ensures Mean([x, y]) == (x + y) / 2.0
    ensures PowerSum([x, y], (x + y) / 2.0, 2) == (y - x) * (y - x) / 2.0
  {
    var xs := [x, y];
    var c := (x + y) / 2.0;
    assert xs[1..] == [y] && xs[1..][1..] == [];
    assert Sum(xs[1..]) == y + Sum(xs[1..][1..]);
    PowerUnfold(x - c);
    PowerUnfold(y - c);
    assert PowerSum(xs[1..], c, 2) == Power(y - c, 2) + PowerSum(xs[1..][1..], c, 2);
    assert (x - c) * (x - c) == (y - x) * (y - x) / 4.0;
  }
}
