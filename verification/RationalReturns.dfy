/**
 The variance guard on returns a computer can hold: integers over a common denominator. Only an
 irrational series can sit on the guard's boundary (research/validation/deflated_sharpe.py, 47-57 and
 351-365; scripts/retrospective_dsr.py, 263-295).
 */
module RationalReturns {
  import opened RealArithmetic
  import opened Moments
  import opened DeflatedSharpe
  import opened SharpeOrder

  /** The returns a/d for the listed numerators a. */
  function Returns(numerators: seq<int>, d: int): seq<real>
    requires 1 <= d
  {
    seq(|numerators|, i requires 0 <= i < |numerators| => numerators[i] as real / d as real)
  }

  // ----- n * (n - 1) is not the square of a fraction -----------------------------------------

  /** Were p/q a root of n * (n - 1), so would be a fraction with a smaller denominator. */
  lemma {:induction false} NoRationalRoot(n: int, p: int, q: int)
    requires 2 <= n && 0 < p && 0 < q
    ensures p * p != n * (n - 1) * (q * q)
    decreases q
  {
    if p * p == n * (n - 1) * (q * q) {
      RootAbove(n, p, q);
      RootBelow(n, p, q);
      Smaller(n, p, q, n * q - p, p - (n - 1) * q);
      PositiveTimes(n - 1, n * q - p, (n - 1) * (n * q - p));
      SmallerDenominator(n, p, q);
      NoRationalRoot(n, (n - 1) * (n * q - p), p - (n - 1) * q);
    }
  }

  lemma SmallerDenominator(n: int, p: int, q: int)
    requires p < n * q
    ensures p - (n - 1) * q < q
  {
    assert n * q == (n - 1) * q + q;
  }

  lemma PositiveTimes(a: int, b: int, product: int)
    requires 0 < a && 0 < b && product == a * b
    ensures 0 < product
  {
  }

  lemma RootAbove(n: int, p: int, q: int)
    requires 2 <= n && 0 < p && 0 < q && n * (n - 1) * (q * q) <= p * p
    ensures (n - 1) * q < p
  {
    var low := (n - 1) * q;
    PositiveTimes(q, q, q * q);
    PositiveTimes(n - 1, q * q, (n - 1) * (q * q));
    assert low * low == (n - 1) * (n - 1) * (q * q);
    assert n * (n - 1) * (q * q) - low * low == (n - 1) * (q * q);
    if p <= low { SquareGrows(p, low); }
  }

  lemma RootBelow(n: int, p: int, q: int)
    requires 2 <= n && 0 < p && 0 < q && p * p <= n * (n - 1) * (q * q)
    ensures p < n * q
  {
    var high := n * q;
    PositiveTimes(q, q, q * q);
    PositiveTimes(n, q, high);
    PositiveTimes(n, q * q, n * (q * q));
    assert high * high == n * n * (q * q);
    assert high * high - n * (n - 1) * (q * q) == n * (q * q);
    if high <= p { SquareGrows(high, p); }
  }

  lemma SquareGrows(a: int, b: int)
    requires 0 < a <= b
    ensures a * a <= b * b
  {
    assert b * b - a * a == (b - a) * (b + a);
  }

  lemma Smaller(n: int, p: int, q: int, r: int, q': int)
    requires p * p == n * (n - 1) * (q * q) && r == n * q - p && q' == p - (n - 1) * q
    ensures ((n - 1) * r) * ((n - 1) * r) == n * (n - 1) * (q' * q')
  {
    var m := n - 1;
    var w := n * (q * q) - 2 * (q * p) + m * (q * q);
    SquareOfGap(n, q, p);
    SquareOfGap(m, q, p);
    assert q' * q' == (m * q - p) * (m * q - p) by { NegatedSquare(q', m * q - p); }
    Factor(n, m, q * q, q * p, p * p, w, r * r, q' * q');
    SquareOfTimes(m, r);
    SameProduct(n, m, w, r * r, q' * q');
  }

  lemma SquareOfGap(n: int, q: int, p: int)
    ensures (n * q - p) * (n * q - p) == n * (n * (q * q)) - 2 * (n * (q * p)) + p * p
  {
  }

  lemma NegatedSquare(a: int, b: int)
    requires a == -b
    ensures a * a == b * b
  {
  }

  lemma Factor(n: int, m: int, s: int, t: int, pp: int, w: int, rr: int, qq: int)
    requires pp == n * m * s && w == n * s - 2 * t + m * s
    requires rr == n * (n * s) - 2 * (n * t) + pp && qq == m * (m * s) - 2 * (m * t) + pp
    ensures rr == n * w && qq == m * w
  {
    assert n * w == n * (n * s) - 2 * (n * t) + n * (m * s);
    assert m * w == m * (n * s) - 2 * (m * t) + m * (m * s);
  }

  lemma SquareOfTimes(m: int, r: int)
    ensures (m * r) * (m * r) == m * (m * (r * r))
  {
  }

  lemma SameProduct(n: int, m: int, w: int, rr: int, qq: int)
    requires rr == n * w && qq == m * w
    ensures m * (m * rr) == n * m * qq
  {
  }

  // ----- the moments of rational returns ------------------------------------------------------

  function IntSum(xs: seq<int>): int {
    if xs == [] then 0 else xs[0] + IntSum(xs[1..])
  }

  function IntSquare(b: int): int {
    b * b
  }

  function IntCube(b: int): int {
    b * (b * b)
  }

  function IntSquares(xs: seq<int>): int {
    if xs == [] then 0 else IntSquare(xs[0]) + IntSquares(xs[1..])
  }

  function IntCubes(xs: seq<int>): int {
    if xs == [] then 0 else IntCube(xs[0]) + IntCubes(xs[1..])
  }

  lemma {:induction false} ScaledSum(numerators: seq<int>, d: int)
    requires 1 <= d
    ensures Sum(Returns(numerators, d)) * (d as real) == IntSum(numerators) as real
  {
    if numerators != [] {
      var xs := Returns(numerators, d);
      assert xs[1..] == Returns(numerators[1..], d);
      ScaledSum(numerators[1..], d);
      DivTimes(numerators[0] as real, d as real);
      Distribute(xs[0], Sum(xs[1..]), d as real);
    }
  }

  lemma Distribute(a: real, b: real, c: real)
    ensures (a + b) * c == a * c + b * c
  {
  }

  /** The deviations, brought over the denominator. */
  ghost predicate Scaled(xs: seq<real>, c: real, scale: real, bs: seq<int>) {
    |xs| == |bs| && forall i :: 0 <= i < |xs| ==> (xs[i] - c) * scale == bs[i] as real
  }

  function Square(x: real): real {
    x * x
  }

  function Cube(x: real): real {
    x * (x * x)
  }

  lemma {:induction false} ScaledSquares(xs: seq<real>, c: real, scale: real, bs: seq<int>)
    requires Scaled(xs, c, scale, bs)
    ensures PowerSum(xs, c, 2) * Square(scale) == IntSquares(bs) as real
  {
    hide *;
    if xs != [] {
      ScaledHead(xs, c, scale, bs);
      ScaledSquares(xs[1..], c, scale, bs[1..]);
      FirstPowers(xs, c);
      FirstIntegers(bs);
    } else {
      ScaledNothing(xs, c, scale, bs);
    }
  }

  lemma {:induction false} ScaledCubes(xs: seq<real>, c: real, scale: real, bs: seq<int>)
    requires Scaled(xs, c, scale, bs)
    ensures PowerSum(xs, c, 3) * Cube(scale) == IntCubes(bs) as real
  {
    hide *;
    if xs != [] {
      ScaledHead(xs, c, scale, bs);
      ScaledCubes(xs[1..], c, scale, bs[1..]);
      FirstPowers(xs, c);
      FirstIntegers(bs);
    } else {
      ScaledNothing(xs, c, scale, bs);
    }
  }

  lemma {:induction false} ScaledNothing(xs: seq<real>, c: real, scale: real, bs: seq<int>)
    requires Scaled(xs, c, scale, bs) && xs == []
    ensures PowerSum(xs, c, 2) == 0.0 == PowerSum(xs, c, 3) && IntSquares(bs) == 0 == IntCubes(bs)
  {
  }

  lemma ScaledHead(xs: seq<real>, c: real, scale: real, bs: seq<int>)
    requires Scaled(xs, c, scale, bs) && xs != []
    ensures bs != [] && Scaled(xs[1..], c, scale, bs[1..])
    ensures Square(xs[0] - c) * Square(scale) == IntSquare(bs[0]) as real
    ensures Cube(xs[0] - c) * Cube(scale) == IntCube(bs[0]) as real
  {
    ScaledPower(xs[0] - c, bs[0] as real, scale);
    hide Square, Cube;
    hide IntSquare, IntCube;
  }

  lemma {:induction false} FirstPowers(xs: seq<real>, c: real)
    requires xs != []
    ensures PowerSum(xs, c, 2) == Square(xs[0] - c) + PowerSum(xs[1..], c, 2)
    ensures PowerSum(xs, c, 3) == Cube(xs[0] - c) + PowerSum(xs[1..], c, 3)
  {
    PowerUnfold(xs[0] - c);
  }

  lemma {:induction false} FirstIntegers(bs: seq<int>)
    requires bs != []
    ensures IntSquares(bs) as real == IntSquare(bs[0]) as real + IntSquares(bs[1..]) as real
    ensures IntCubes(bs) as real == IntCube(bs[0]) as real + IntCubes(bs[1..]) as real
  {
    hide IntSquare, IntCube;
  }

  lemma ScaledPower(x: real, b: real, scale: real)
    requires x * scale == b
    ensures Square(x) * Square(scale) == Square(b) && Cube(x) * Cube(scale) == Cube(b)
  {
    assert (x * x) * (scale * scale) == (x * scale) * (x * scale);
    assert (x * (x * x)) * (scale * (scale * scale)) == (x * scale) * ((x * x) * (scale * scale));
  }

  /** The numerators of the deviations: n times each less the sum of all. */
  function Deviations(numerators: seq<int>): seq<int> {
    seq(|numerators|, i requires 0 <= i < |numerators| => |numerators| * numerators[i] - IntSum(numerators))
  }

  /** The common denominator of the mean and the deviations. */
  function Scale(numerators: seq<int>, d: int): real {
    (|numerators| * d) as real
  }

  lemma ScaleIs(numerators: seq<int>, d: int)
    requires 1 <= d && numerators != []
    ensures 0.0 < Scale(numerators, d) == (|numerators| as real) * (d as real)
  {
    PositiveTimes(|numerators|, d, |numerators| * d);
  }

  lemma {:induction false} MeanOfReturns(numerators: seq<int>, d: int)
    requires 1 <= d && numerators != []
    ensures Returns(numerators, d) != []
    ensures Mean(Returns(numerators, d)) * Scale(numerators, d) == IntSum(numerators) as real
  {
    ScaledSum(numerators, d);
    ReturnsLength(numerators, d);
    hide *;
    ScaleIs(numerators, d);
    var xs := Returns(numerators, d);
  }

  lemma {:induction false} DeviationsScale(numerators: seq<int>, d: int)
    requires 1 <= d && numerators != []
    ensures var xs := Returns(numerators, d); var scale := Scale(numerators, d);
            xs != [] && 0.0 < scale && Mean(xs) * scale == IntSum(numerators) as real
            && Scaled(xs, Mean(xs), scale, Deviations(numerators))
  {
    hide *;
    ScaleIs(numerators, d);
    MeanOfReturns(numerators, d);
    EveryDeviationScales(numerators, d, Mean(Returns(numerators, d)), IntSum(numerators), Scale(numerators, d));
  }

  lemma {:induction false} EveryDeviationScales(numerators: seq<int>, d: int, mean: real, sum: int, scale: real)
    requires 1 <= d && sum == IntSum(numerators) && scale == Scale(numerators, d) && mean * scale == sum as real
    ensures Scaled(Returns(numerators, d), mean, scale, Deviations(numerators))
  {
    hide IntSum;
    var xs := Returns(numerators, d);
    forall i | 0 <= i < |xs| ensures (xs[i] - mean) * scale == Deviations(numerators)[i] as real {
      DivTimes(numerators[i] as real, d as real);
    }
  }

  // ----- the guard --------------------------------------------------------------------------------

  predicate Balanced(n: real, s2: real, s3: real, mean: real) {
    4.0 * ((s2 * s2) * (s2 * s2)) == n * (n - 1.0) * ((s3 * mean) * (s3 * mean))
  }

  /** On the boundary the power sums satisfy 4 * S2^4 == n * (n - 1) * (S3 * mean)^2. */
  lemma {:induction false} BoundaryEquation(xs: seq<real>, num: Numerics)
    requires num.Ideal() && 3 <= |xs|
    ensures OnBoundary(xs, num) ==>
              0.0 < Dispersion(xs) && Balanced(|xs| as real, Dispersion(xs), PowerSum(xs, Mean(xs), 3), Mean(xs))
  {
    hide *;
    if OnBoundary(xs, num) {
      BoundaryIsRegular(xs, num);
      SkewnessMagnitude(xs, num);
      SharpeMagnitude(xs, num);
      RegularScore(xs);
      PowerSumFromMoment(xs, 2);
      PowerSumFromMoment(xs, 3);
      DispersionIs(xs);
      BoundaryProduct(xs, num);
      BoundaryOf(|xs| as real, (|xs| - 1) as real, Mean(xs), CentralMoment(xs, 2), CentralMoment(xs, 3),
        SampleSkewness(xs, num), SampleSharpe(xs, num), Dispersion(xs), PowerSum(xs, Mean(xs), 3));
    }
  }

  lemma BoundaryProduct(xs: seq<real>, num: Numerics)
    requires num.Ideal()
    ensures OnBoundary(xs, num) <==> SampleSkewness(xs, num) * SampleSharpe(xs, num) == 2.0
  {
    hide SampleSkewness, SampleSharpe;
  }

  lemma BoundaryIsRegular(xs: seq<real>, num: Numerics)
    requires num.Ideal()
    ensures OnBoundary(xs, num) ==> 3 <= |xs| && 0.0 < CentralMoment(xs, 2) && !Degenerate(xs)
  {
    if Degenerate(xs) {
      hide *;
      DegenerateScoresZero(xs, num);
    } else if |xs| < 3 || CentralMoment(xs, 2) <= 0.0 {
      hide *;
    }
  }

  lemma BoundaryOf(n: real, n1: real, mean: real, m2: real, m3: real, skew: real, sr: real, s2: real, s3: real)
    requires 0.0 < m2 && 3.0 <= n && n1 == n - 1.0 && skew * sr == 2.0
    requires Square(skew) * Cube(m2) == Square(m3) && Square(sr) * s2 == n1 * Square(mean)
    requires s2 == n * m2 && s3 == n * m3
    ensures 0.0 < s2 && Balanced(n, s2, s3, mean)
  {
    SquareOfProduct(skew, sr);
  }

  lemma SkewnessMagnitude(xs: seq<real>, num: Numerics)
    requires num.Ideal() && 3 <= |xs| && 0.0 < CentralMoment(xs, 2)
    ensures Square(SampleSkewness(xs, num)) * Cube(CentralMoment(xs, 2)) == Square(CentralMoment(xs, 3))
  {
    SkewnessSquared(xs, num);
    hide SampleSkewness, CentralMoment;
  }

  lemma SharpeMagnitude(xs: seq<real>, num: Numerics)
    requires num.Ideal() && !Degenerate(xs)
    ensures 2 <= |xs|
    ensures Square(SampleSharpe(xs, num)) * Dispersion(xs) == ((|xs| - 1) as real) * Square(Mean(xs))
  {
    hide *;
    RegularScore(xs);
    RegularSharpe(xs, num);
    Magnitudes(SampleSharpe(xs, num), Dispersion(xs), (|xs| - 1) as real, Mean(xs));
  }

  lemma Magnitudes(sr: real, dispersion: real, n: real, mean: real)
    requires 0.0 < dispersion && 0.0 < n && SignedSquare(sr) * dispersion == n * SignedSquare(mean)
    ensures Square(sr) * dispersion == n * Square(mean)
  {
    SquareNonNegative(sr);
    SquareNonNegative(mean);
    ScaledNonNegative(sr * sr, dispersion, (sr * sr) * dispersion);
    ScaledNonNegative(mean * mean, n, n * (mean * mean));
    if sr < 0.0 { assert SignedSquare(sr) * dispersion == -((sr * sr) * dispersion); }
    if mean < 0.0 { assert n * SignedSquare(mean) == -(n * (mean * mean)); }
  }

  /** Where the guard can fire: skew * SR = 2. */
  predicate OnBoundary(xs: seq<real>, num: Numerics)
    requires num.Ideal()
  {
    SampleSkewness(xs, num) * SampleSharpe(xs, num) == 2.0
  }

  lemma GuardNeedsBoundary(xs: seq<real>, num: Numerics)
    requires num.Ideal() && !OnBoundary(xs, num)
    ensures 0.0 < SeriesVarianceTerm(xs, SampleSharpe(xs, num), num)
  {
    GuardFiresExactly(xs, SampleSharpe(xs, num), num);
    hide SampleSkewness, SampleSharpe, SampleKurtosis, SeriesVarianceTerm;
  }

  /** Brought over the denominator, the boundary would make n * (n - 1) the square of a fraction. */
  lemma NoRationalBoundary(numerators: seq<int>, d: int, num: Numerics)
    requires num.Ideal() && 1 <= d
    ensures !OnBoundary(Returns(numerators, d), num)
  {
    hide *;
    var xs := Returns(numerators, d);
    if OnBoundary(xs, num) {
      BoundaryIsRegular(xs, num);
      BoundaryEquation(xs, num);
      ReturnsLength(numerators, d);
      DeviationsScale(numerators, d);
      var n, bs, scale := |numerators|, Deviations(numerators), Scale(numerators, d);
      ScaledSquares(xs, Mean(xs), scale, bs);
      ScaledCubes(xs, Mean(xs), scale, bs);
      DispersionIs(xs);
      IntegerBoundary(n, Dispersion(xs), PowerSum(xs, Mean(xs), 3), Mean(xs), scale, IntSquares(bs), IntCubes(bs),
        IntSum(numerators));
      NotBalanced(n, IntSquares(bs), IntCubes(bs) * IntSum(numerators));
    }
  }

  lemma ReturnsLength(numerators: seq<int>, d: int)
    requires 1 <= d
    ensures |Returns(numerators, d)| == |numerators|
  {
  }

  lemma {:induction false} DispersionIs(xs: seq<real>)
    requires xs != []
    ensures Dispersion(xs) == PowerSum(xs, Mean(xs), 2)
  {
  }

  lemma IntegerBoundary(n: int, s2: real, s3: real, mean: real, scale: real, b2: int, b3: int, sum: int)
    requires 3 <= n && 0.0 < s2 && 0.0 < scale
    requires Balanced(n as real, s2, s3, mean)
    requires s2 * Square(scale) == b2 as real && s3 * Cube(scale) == b3 as real && mean * scale == sum as real
    ensures 0 < b2
    ensures 4 * ((b2 * b2) * (b2 * b2)) == n * (n - 1) * ((b3 * sum) * (b3 * sum))
  {
    var q := scale * scale;
    ProductPositive(scale, scale, q);
    ProductPositive(s2, q, b2 as real);
    var e := (q * q) * (q * q);
    FourthScale(s2, q, b2 as real, e);
    ThirdScale(s3, mean, scale, q, b3 as real, sum as real, e);
    var left, right := (s2 * s2) * (s2 * s2), (s3 * mean) * (s3 * mean);
    ScaleBoth(n as real, left, right, e, left * e, right * e);
    IntegerValues(n, b2, b3, sum);
  }

  lemma FourthScale(s2: real, q: real, b2: real, e: real)
    requires s2 * q == b2 && e == (q * q) * (q * q)
    ensures ((s2 * s2) * (s2 * s2)) * e == (b2 * b2) * (b2 * b2)
  {
    SquareOfProduct(s2, q);
    SquareOfProduct(s2 * s2, q * q);
  }

  lemma ThirdScale(s3: real, mean: real, scale: real, q: real, b3: real, sum: real, e: real)
    requires q == scale * scale && s3 * (scale * q) == b3 && mean * scale == sum && e == (q * q) * (q * q)
    ensures ((s3 * mean) * (s3 * mean)) * e == (b3 * sum) * (b3 * sum)
  {
    assert (s3 * mean) * (q * q) == (s3 * (scale * q)) * (mean * scale);
    SquareOfProduct(s3 * mean, q * q);
  }

  lemma ScaleBoth(n: real, left: real, right: real, e: real, leftE: real, rightE: real)
    requires 4.0 * left == n * (n - 1.0) * right && leftE == left * e && rightE == right * e
    ensures 4.0 * leftE == n * (n - 1.0) * rightE
  {
    assert 4.0 * leftE == (4.0 * left) * e;
    assert n * (n - 1.0) * rightE == (n * (n - 1.0) * right) * e;
  }

  lemma IntegerValues(n: int, b2: int, b3: int, sum: int)
    requires 4.0 * (((b2 as real) * (b2 as real)) * ((b2 as real) * (b2 as real)))
          == (n as real) * (n as real - 1.0) * (((b3 as real) * (sum as real)) * ((b3 as real) * (sum as real)))
    ensures 4 * ((b2 * b2) * (b2 * b2)) == n * (n - 1) * ((b3 * sum) * (b3 * sum))
  {
    assert (n - 1) as real == n as real - 1.0;
  }

  lemma NotBalanced(n: int, b2: int, t: int)
    requires 3 <= n && 0 < b2
    ensures 4 * ((b2 * b2) * (b2 * b2)) != n * (n - 1) * (t * t)
  {
    var p, q := 2 * (b2 * b2), if t < 0 then -t else t;
    PositiveTimes(b2, b2, b2 * b2);
    PositiveTimes(p, p, p * p);
    assert p * p == 4 * ((b2 * b2) * (b2 * b2));
    assert q * q == t * t;
    if q == 0 {
    } else {
      NoRationalRoot(n, p, q);
    }
  }

  /** On returns that are fractions, with the Sharpe ratio taken from the same returns, the variance
      term is positive: the guard never fires. */
  lemma GuardSilentOnFractions(numerators: seq<int>, d: int, num: Numerics)
    requires num.Ideal() && 1 <= d
    ensures var xs := Returns(numerators, d); 0.0 < SeriesVarianceTerm(xs, SampleSharpe(xs, num), num)
  {
    var xs := Returns(numerators, d);
    hide *;
    NoRationalBoundary(numerators, d, num);
    GuardNeedsBoundary(xs, num);
  }

  /** So `_dsr_p_value` falls back to 1 on fractions only for want of two trades. */
  lemma FractionsAreComputable(numerators: seq<int>, d: int, k: int, v: real, num: Numerics)
    requires num.Ideal() && 1 <= d && 1 <= k && 0.0 <= v
    ensures SeriesDsr(Returns(numerators, d), k, v, num).Success? <==> 2 <= |numerators|
    ensures DsrPValue(Returns(numerators, d), k, v, num) < 1.0 <==> 2 <= |numerators|
  {
    GuardSilentOnFractions(numerators, d, num);
    ReturnsLength(numerators, d);
    ExpectedMaxSharpeMonotone(num, v, v, k, k);
    hide SampleSharpe, SampleSkewness, SampleKurtosis, VarianceTerm, ExpectedMaxSharpe, Returns;
  }
}
