/**
 When one return series has a higher Sharpe ratio than another, as after its costs are padded
 (research/validation/deflated_sharpe.py, 213-255), and when a higher observed Sharpe ratio means a
 higher probabilistic one (311-370).
 */
module SharpeOrder {
  import opened RealArithmetic
  import opened Wrappers
  import opened Moments
  import opened DeflatedSharpe

  function SignedSquare(x: real): real {
    if x < 0.0 then -(x * x) else x * x
  }

  /** The sum of squared deviations. */
  function Dispersion(xs: seq<real>): real
    requires xs != []
  {
    PowerSum(xs, Mean(xs), 2)
  }

  /** The series scores zero: too short, constant, or with a dispersion within the cliff guard's
      tolerance of its level. No root needs to be taken to tell. */
  predicate Degenerate(xs: seq<real>) {
    || |xs| < 2
    || Dispersion(xs) <= 0.0
    || Dispersion(xs) <= ((|xs| - 1) as real)
                         * ((Mean(xs) * Mean(xs)) * (DEGENERATE_DISPERSION_REL_TOL * DEGENERATE_DISPERSION_REL_TOL))
  }

  /** The Sharpe ratio as a fraction without a root: signed squared mean over dispersion. */
  function Score(xs: seq<real>): real {
    if Degenerate(xs) then 0.0 else SignedSquare(Mean(xs))
  }

  function Weight(xs: seq<real>): real {
    if Degenerate(xs) then 1.0 else Dispersion(xs)
  }

  /** Compare the scores across the weights. */
  predicate ScoresAtMost(ys: seq<real>, xs: seq<real>) {
    Score(ys) * Weight(xs) <= Score(xs) * Weight(ys)
  }

  lemma CrossProducts(ys: seq<real>, xs: seq<real>)
    ensures ScoresAtMost(ys, xs) <==> Score(ys) * Weight(xs) <= Score(xs) * Weight(ys)
  {
    hide Score, Weight;
  }

  lemma RegularScore(xs: seq<real>)
    requires !Degenerate(xs)
    ensures 2 <= |xs| && Weight(xs) == Dispersion(xs) > 0.0 && Score(xs) == SignedSquare(Mean(xs))
  {
    hide Mean, PowerSum, SignedSquare;
  }

  lemma DegenerateScore(xs: seq<real>)
    requires Degenerate(xs)
    ensures Weight(xs) == 1.0 && Score(xs) == 0.0
  {
    hide Mean, PowerSum, SignedSquare;
  }

  lemma SignedSquareOrder(x: real, y: real)
    ensures SignedSquare(x) <= SignedSquare(y) <==> x <= y
  {
    if x <= y {
    } else {
      if SignedSquare(x) == SignedSquare(y) { SignedSquareInjective(x, y); }
    }
  }

  lemma SignedSquareInjective(x: real, y: real)
    requires SignedSquare(x) == SignedSquare(y)
    ensures x == y
  {
    if 0.0 <= x && 0.0 <= y {
      RootUnique(x, y);
    } else if x < 0.0 && y < 0.0 {
      RootUnique(-x, -y);
    } else {
      var negative := if x < 0.0 then x else y;
      SquarePositive(negative, negative * negative);
    }
  }

  lemma SquarePositive(x: real, square: real)
    requires x != 0.0 && square == x * x
    ensures 0.0 < square
  {
    if x < 0.0 { ProductPositive(-x, -x, square); } else { ProductPositive(x, x, square); }
  }

  lemma CliffSquared(std: real, level: real, variance: real)
    requires 0.0 <= std && 0.0 <= level && std * std == variance
    ensures std <= level <==> variance <= level * level
  {
    SignedSquareOrder(std, level);
  }

  /** The signed square of the estimate is n - 1 times the score over the weight. */
  lemma SharpeSquared(xs: seq<real>, num: Numerics)
    requires num.Ideal()
    ensures 0.0 < Weight(xs)
    ensures SignedSquare(SampleSharpe(xs, num)) * Weight(xs) == ((|xs| - 1) as real) * Score(xs)
  {
    hide *;
    if Degenerate(xs) {
      DegenerateScoresZero(xs, num);
      DegenerateScore(xs);
      SignedSquareOfZero();
    } else {
      RegularSharpe(xs, num);
      RegularScore(xs);
    }
  }

  lemma SignedSquareOfZero()
    ensures SignedSquare(0.0) == 0.0
  {
  }

  /** The guard in the source compares the deviation with the level; squared, with no root. */
  lemma GuardSquared(xs: seq<real>, std: real, num: Numerics)
    requires 2 <= |xs| && num.Ideal() && std == num.sqrt(Dispersion(xs) / ((|xs| - 1) as real)) && 0.0 < Dispersion(xs)
    ensures var n := (|xs| - 1) as real; 0.0 < std && (std * std) * n == Dispersion(xs) && 0.0 < Dispersion(xs) / n
    ensures Degenerate(xs) <==> std <= Abs(Mean(xs)) * DEGENERATE_DISPERSION_REL_TOL
  {
    var n, mean, dispersion := (|xs| - 1) as real, Mean(xs), Dispersion(xs);
    hide Mean, Dispersion, Abs;
    var variance := dispersion / n;
    DivTimes(dispersion, n);
    var level := Abs(mean) * DEGENERATE_DISPERSION_REL_TOL;
    SqrtPositive(num, variance);
    CliffSquared(std, level, variance);
    assert Degenerate(xs) <==> dispersion <= n * (level * level);
  }

  lemma DegenerateScoresZero(xs: seq<real>, num: Numerics)
    requires num.Ideal() && Degenerate(xs)
    ensures SampleSharpe(xs, num) == 0.0
  {
    if 2 <= |xs| {
      var n := (|xs| - 1) as real;
      if Dispersion(xs) <= 0.0 {
        DivTimes(Dispersion(xs), n);
        hide Mean, PowerSum;
      } else {
        GuardSquared(xs, num.sqrt(Dispersion(xs) / n), num);
        hide Mean, PowerSum, Degenerate, Abs;
      }
    }
  }

  lemma RegularSharpe(xs: seq<real>, num: Numerics)
    requires num.Ideal() && !Degenerate(xs)
    ensures SignedSquare(SampleSharpe(xs, num)) * Dispersion(xs) == ((|xs| - 1) as real) * SignedSquare(Mean(xs))
  {
    var n := (|xs| - 1) as real;
    var variance := Dispersion(xs) / n;
    var std := num.sqrt(variance);
    GuardSquared(xs, std, num);
    hide Mean, PowerSum, Degenerate, Abs, SignedSquare;
    assert SampleSharpe(xs, num) == Mean(xs) / std;
    DivTimes(Mean(xs), std);
    hide *;
    RatioSquared(SampleSharpe(xs, num), std, Mean(xs), std * std, n, Dispersion(xs));
  }

  lemma RatioSquared(ratio: real, std: real, mean: real, variance: real, n: real, dispersion: real)
    requires 0.0 < std && ratio * std == mean && std * std == variance && dispersion == variance * n
    ensures SignedSquare(ratio) * dispersion == n * SignedSquare(mean)
  {
    if ratio < 0.0 { ProductPositive(-ratio, std, -mean); } else { ScaledNonNegative(ratio, std, mean); }
    SquareOfProduct(ratio, std);
    assert (ratio * ratio) * variance == mean * mean;
    assert (ratio * ratio) * dispersion == ((ratio * ratio) * variance) * n;
  }

  /** The exact order of two Sharpe ratios over equally many returns, for every pair of series, of any
      sign, degenerate or not: compare the scores across the weights. */
  lemma SharpeAtMostIff(ys: seq<real>, xs: seq<real>, num: Numerics)
    requires num.Ideal() && |xs| == |ys|
    ensures SampleSharpe(ys, num) <= SampleSharpe(xs, num) <==> ScoresAtMost(ys, xs)
  {
    hide *;
    CrossProducts(ys, xs);
    if |xs| < 2 {
      ShortScoresZero(xs, num);
      ShortScoresZero(ys, num);
    } else {
      SharpeSquared(xs, num);
      SharpeSquared(ys, num);
      SignedSquareOrder(SampleSharpe(ys, num), SampleSharpe(xs, num));
      CompareFractions(SignedSquare(SampleSharpe(ys, num)), SignedSquare(SampleSharpe(xs, num)), Weight(ys), Weight(xs),
        Score(ys), Score(xs), (|xs| - 1) as real, Score(ys) * Weight(xs), Score(xs) * Weight(ys));
    }
  }

  lemma ShortScoresZero(xs: seq<real>, num: Numerics)
    requires num.Ideal() && |xs| < 2
    ensures SampleSharpe(xs, num) == 0.0 && Score(xs) == 0.0
  {
  }

  /** a/v against b/w, given as a*v == n*p and b*w == n*q; the products are parameters. */
  lemma CompareFractions(a: real, b: real, v: real, w: real, p: real, q: real, n: real, pw: real, qv: real)
    requires 0.0 < v && 0.0 < w && 0.0 < n && a * v == n * p && b * w == n * q && pw == p * w && qv == q * v
    ensures a <= b <==> pw <= qv
  {
    var vw := v * w;
    ProductPositive(v, w, vw);
  }

  /** The squared mean after outweighs the one before, each against the other's dispersion. */
  predicate Outweighs(after: real, before: real, dispersionAfter: real, dispersionBefore: real) {
    (before * before) * dispersionAfter < (after * after) * dispersionBefore
  }

  /** With positive means away from the cliff, the second series scores higher exactly if its squared
      mean outweighs its dispersion. */
  lemma HigherIff(ys: seq<real>, xs: seq<real>, num: Numerics)
    requires num.Ideal() && |xs| == |ys| && !Degenerate(xs) && !Degenerate(ys) && 0.0 < Mean(xs) && 0.0 < Mean(ys)
    ensures SampleSharpe(xs, num) < SampleSharpe(ys, num)
       <==> Outweighs(Mean(ys), Mean(xs), Dispersion(ys), Dispersion(xs))
  {
    hide *;
    RegularScore(xs);
    RegularScore(ys);
    SharpeAtMostIff(ys, xs, num);
    CrossProducts(ys, xs);
    OutweighsMeans(Mean(ys), Mean(xs), Weight(ys), Weight(xs), Score(ys), Score(xs), Score(ys) * Weight(xs),
      Score(xs) * Weight(ys));
  }

  lemma OutweighsMeans(after: real, before: real, wideAfter: real, wideBefore: real, a: real, b: real, left: real,
                       right: real)
    requires 0.0 < after && 0.0 < before && a == SignedSquare(after) && b == SignedSquare(before)
    requires left == a * wideBefore && right == b * wideAfter
    ensures Outweighs(after, before, wideAfter, wideBefore) <==> right < left
  {
  }

  /** A lower mean with no less dispersion never scores higher, from a regular series that did not lose. */
  lemma WiderNeverHigher(ys: seq<real>, xs: seq<real>, num: Numerics)
    requires num.Ideal() && |xs| == |ys| && !Degenerate(xs)
    requires 0.0 <= Mean(xs) && Mean(ys) <= Mean(xs) && Dispersion(xs) <= Dispersion(ys)
    ensures SampleSharpe(ys, num) <= SampleSharpe(xs, num)
  {
    hide *;
    RegularScore(xs);
    SharpeAtMostIff(ys, xs, num);
    if Degenerate(ys) {
      DegenerateNeverHigher(ys, xs);
    } else {
      WiderProducts(ys, xs);
    }
  }

  lemma DegenerateNeverHigher(ys: seq<real>, xs: seq<real>)
    requires xs != [] && Degenerate(ys) && !Degenerate(xs) && 0.0 <= Mean(xs)
    ensures ScoresAtMost(ys, xs)
  {
    hide *;
    RegularScore(xs);
    DegenerateScore(ys);
    CrossProducts(ys, xs);
    SignedSquareOrder(0.0, Mean(xs));
    SignedSquareOfZero();
  }

  lemma WiderProducts(ys: seq<real>, xs: seq<real>)
    requires xs != [] && ys != []
    ensures && !Degenerate(xs) && !Degenerate(ys)
            && 0.0 <= Mean(xs) && Mean(ys) <= Mean(xs) && Dispersion(xs) <= Dispersion(ys)
        ==> ScoresAtMost(ys, xs)
  {
    hide *;
    if Degenerate(xs) || Degenerate(ys) || Mean(xs) < 0.0 || Mean(xs) < Mean(ys) || Dispersion(ys) < Dispersion(xs) {
      return;
    }
    RegularScore(xs);
    RegularScore(ys);
    CrossProducts(ys, xs);
    WiderScores(Mean(ys), Mean(xs), Weight(ys), Weight(xs), Score(ys), Score(xs), Score(ys) * Weight(xs),
      Score(xs) * Weight(ys));
  }

  lemma WiderScores(low: real, high: real, wide: real, narrow: real, a: real, b: real, left: real, right: real)
    requires low <= high && 0.0 <= high && 0.0 < narrow <= wide && a == SignedSquare(low) && b == SignedSquare(high)
    requires left == a * narrow && right == b * wide
    ensures left <= right
  {
    SignedSquareOrder(low, high);
    SignedSquareOrder(0.0, high);
    assert SignedSquare(0.0) == 0.0;
    hide SignedSquare;
    if a < 0.0 {
      ProductPositive(-a, narrow, -left);
      ScaledNonNegative(b, wide, right);
    } else {
      ProductMonotone(a, b, narrow, wide, left, right);
    }
  }

  // ----- padding ------------------------------------------------------------------------------

  /** Each return less its pad. */
  function Padded(xs: seq<real>, pads: seq<real>): seq<real>
    requires |xs| == |pads|
  {
    seq(|xs|, i requires 0 <= i < |xs| => xs[i] - pads[i])
  }

  /** The sum of products of deviations. */
  function CrossSum(xs: seq<real>, ps: seq<real>, c: real, d: real): real
    requires |xs| == |ps|
  {
    if xs == [] then 0.0 else (xs[0] - c) * (ps[0] - d) + CrossSum(xs[1..], ps[1..], c, d)
  }

  lemma {:induction false} PaddedSum(xs: seq<real>, pads: seq<real>)
    requires |xs| == |pads|
    ensures Sum(Padded(xs, pads)) == Sum(xs) - Sum(pads)
  {
    if xs != [] {
      assert Padded(xs, pads)[1..] == Padded(xs[1..], pads[1..]);
      PaddedSum(xs[1..], pads[1..]);
    }
  }

  function DeviationProduct(x: real, c: real, y: real, d: real): real {
    (x - c) * (y - d)
  }

  lemma {:induction false} PaddedSquares(xs: seq<real>, pads: seq<real>, c: real, d: real)
    requires |xs| == |pads|
    ensures PowerSum(Padded(xs, pads), c - d, 2)
         == PowerSum(xs, c, 2) - 2.0 * CrossSum(xs, pads, c, d) + PowerSum(pads, d, 2)
  {
    if xs != [] {
      var ys := Padded(xs, pads);
      assert ys[1..] == Padded(xs[1..], pads[1..]) && ys[0] == xs[0] - pads[0];
      PaddedSquares(xs[1..], pads[1..], c, d);
      FirstSquare(ys, c - d);
      FirstSquare(xs, c);
      FirstSquare(pads, d);
      SquareOfDifference(xs[0], c, pads[0], d);
      assert CrossSum(xs, pads, c, d) == DeviationProduct(xs[0], c, pads[0], d) + CrossSum(xs[1..], pads[1..], c, d);
      hide PowerSum, CrossSum, DeviationProduct;
    }
  }

  lemma {:induction false} FirstSquare(xs: seq<real>, c: real)
    requires xs != []
    ensures PowerSum(xs, c, 2) == DeviationProduct(xs[0], c, xs[0], c) + PowerSum(xs[1..], c, 2)
  {
    PowerUnfold(xs[0] - c);
  }

  lemma SquareOfDifference(x: real, c: real, p: real, d: real)
    ensures DeviationProduct(x - p, c - d, x - p, c - d)
         == DeviationProduct(x, c, x, c) - 2.0 * DeviationProduct(x, c, p, d) + DeviationProduct(p, d, p, d)
  {
  }

  /** What a pad does to the two statistics: the mean falls by the mean pad, and the dispersion falls
      with twice the covariance of pads and returns and rises with the dispersion of the pads. */
  lemma {:induction false} PaddedStatistics(xs: seq<real>, pads: seq<real>)
    requires |xs| == |pads| && xs != []
    ensures Mean(Padded(xs, pads)) == Mean(xs) - Mean(pads)
    ensures Dispersion(Padded(xs, pads))
         == Dispersion(xs) - 2.0 * CrossSum(xs, pads, Mean(xs), Mean(pads)) + Dispersion(pads)
  {
    PaddedSum(xs, pads);
    PaddedSquares(xs, pads, Mean(xs), Mean(pads));
    hide Sum, PowerSum, CrossSum;
    QuotientOfDifference(Sum(Padded(xs, pads)), Sum(xs), Sum(pads), |xs| as real);
    assert Mean(Padded(xs, pads)) == Mean(xs) - Mean(pads);
    hide *;
  }

  lemma QuotientOfDifference(difference: real, a: real, b: real, n: real)
    requires n != 0.0 && difference == a - b
    ensures difference / n == a / n - b / n
  {
  }

  /** What the pads take off the dispersion. */
  function Narrowing(xs: seq<real>, pads: seq<real>): real
    requires |xs| == |pads| && xs != []
  {
    2.0 * CrossSum(xs, pads, Mean(xs), Mean(pads)) - Dispersion(pads)
  }

  /** Both series are regular, with positive means. */
  predicate StaysPositive(xs: seq<real>, pads: seq<real>) {
    && xs != [] && |xs| == |pads| && 0.0 < Mean(xs) && Mean(pads) < Mean(xs)
    && !Degenerate(xs) && !Degenerate(Padded(xs, pads))
  }

  /** The narrowing outweighs what the pads take off the mean. */
  predicate NarrowingOutweighs(xs: seq<real>, pads: seq<real>)
    requires |xs| == |pads| && xs != []
  {
    Outweighs(Mean(xs) - Mean(pads), Mean(xs), Dispersion(xs) - Narrowing(xs, pads), Dispersion(xs))
  }

  /** Pads raise the Sharpe ratio of a regular series with a positive padded mean exactly if the
      narrowing outweighs what they take off the mean. */
  lemma PadsRaiseIff(xs: seq<real>, pads: seq<real>, num: Numerics)
    requires num.Ideal() && StaysPositive(xs, pads)
    ensures SampleSharpe(xs, num) < SampleSharpe(Padded(xs, pads), num) <==> NarrowingOutweighs(xs, pads)
  {
    assert |Padded(xs, pads)| == |xs|;
    PaddedStatistics(xs, pads);
    assert Dispersion(Padded(xs, pads)) == Dispersion(xs) - Narrowing(xs, pads);
    hide *;
    HigherIff(Padded(xs, pads), xs, num);
  }

  function Uniform(n: nat, pad: real): seq<real> {
    seq(n, _ => pad)
  }

  lemma {:induction false} UniformSums(n: nat, pad: real, xs: seq<real>, c: real)
    requires |xs| == n
    ensures Sum(Uniform(n, pad)) == (n as real) * pad
    ensures PowerSum(Uniform(n, pad), pad, 2) == 0.0 && CrossSum(xs, Uniform(n, pad), c, pad) == 0.0
  {
    if 0 < n {
      assert Uniform(n, pad)[1..] == Uniform(n - 1, pad);
      UniformSums(n - 1, pad, xs[1..], c);
      PowerUnfold(0.0);
    }
  }

  /** The same pad on every trade lowers the Sharpe ratio exactly if it is a cost, as long as neither
      series falls to the cliff guard. */
  lemma UniformPadIff(xs: seq<real>, pad: real, num: Numerics)
    requires num.Ideal() && !Degenerate(xs) && !Degenerate(Padded(xs, Uniform(|xs|, pad)))
    ensures SampleSharpe(Padded(xs, Uniform(|xs|, pad)), num) <= SampleSharpe(xs, num) <==> 0.0 <= pad
  {
    var pads := Uniform(|xs|, pad);
    var ys := Padded(xs, pads);
    assert |ys| == |xs| && xs != [];
    hide *;
    UniformStatistics(xs, pad);
    SharpeAtMostIff(ys, xs, num);
    EqualWeights(ys, xs);
  }

  lemma EqualWeights(ys: seq<real>, xs: seq<real>)
    requires xs != [] && ys != [] && !Degenerate(xs) && !Degenerate(ys) && Dispersion(ys) == Dispersion(xs)
    ensures ScoresAtMost(ys, xs) <==> Mean(ys) <= Mean(xs)
  {
    hide *;
    CrossProducts(ys, xs);
    RegularScore(xs);
    RegularScore(ys);
    SignedSquareOrder(Mean(ys), Mean(xs));
  }

  lemma UniformStatistics(xs: seq<real>, pad: real)
    requires xs != []
    ensures var ys := Padded(xs, Uniform(|xs|, pad)); Mean(ys) == Mean(xs) - pad && Dispersion(ys) == Dispersion(xs)
  {
    var pads := Uniform(|xs|, pad);
    UniformSums(|xs|, pad, xs, Mean(xs));
    PaddedStatistics(xs, pads);
    hide Sum, PowerSum, CrossSum;
  }

  /** An equal pad takes the same off the centre and off every return. */
  lemma {:induction false} ShiftedPowers(xs: seq<real>, pad: real, c: real, k: nat)
    ensures PowerSum(Padded(xs, Uniform(|xs|, pad)), c - pad, k) == PowerSum(xs, c, k)
  {
    if xs != [] {
      var ys := Padded(xs, Uniform(|xs|, pad));
      assert ys[1..] == Padded(xs[1..], Uniform(|xs| - 1, pad));
      ShiftedPowers(xs[1..], pad, c, k);
      assert ys[0] - (c - pad) == xs[0] - c;
    }
  }

  /** Equal pads leave the shape of the returns alone: skewness and kurtosis are unchanged. */
  lemma UniformPadKeepsShape(xs: seq<real>, pad: real, num: Numerics)
    requires num.Ideal()
    ensures var ys := Padded(xs, Uniform(|xs|, pad));
            SampleSkewness(ys, num) == SampleSkewness(xs, num) && SampleKurtosis(ys) == SampleKurtosis(xs)
  {
    var ys := Padded(xs, Uniform(|xs|, pad));
    assert |ys| == |xs|;
    if xs != [] {
      hide *;
      UniformPadKeepsMoment(xs, pad, 2);
      UniformPadKeepsMoment(xs, pad, 3);
      UniformPadKeepsMoment(xs, pad, 4);
      ShapeFromMoments(xs, num);
      ShapeFromMoments(ys, num);
    }
  }

  /** Skewness and kurtosis as functions of the moments. */
  function Skewness(n: nat, m2: real, m3: real, num: Numerics): real
    requires num.Ideal()
  {
    if n < 3 || m2 <= 0.0 then 0.0
    else assert num.sqrt(m2) * num.sqrt(m2) == m2; m3 / (m2 * num.sqrt(m2))
  }

  function Kurtosis(n: nat, m2: real, m4: real): real {
    if n < 4 || m2 <= 0.0 then 3.0 else m4 / (m2 * m2)
  }

  lemma ShapeFromMoments(xs: seq<real>, num: Numerics)
    requires num.Ideal() && xs != []
    ensures SampleSkewness(xs, num) == Skewness(|xs|, CentralMoment(xs, 2), CentralMoment(xs, 3), num)
    ensures SampleKurtosis(xs) == Kurtosis(|xs|, CentralMoment(xs, 2), CentralMoment(xs, 4))
  {
    hide CentralMoment;
  }

  lemma UniformPadKeepsMoment(xs: seq<real>, pad: real, k: nat)
    requires xs != []
    ensures var ys := Padded(xs, Uniform(|xs|, pad)); ys != [] && CentralMoment(ys, k) == CentralMoment(xs, k)
  {
    var ys := Padded(xs, Uniform(|xs|, pad));
    assert |ys| == |xs|;
    hide Mean, PowerSum, Padded, Uniform;
    UniformStatistics(xs, pad);
    ShiftedPowers(xs, pad, Mean(xs), k);
  }

  /** A positive equal pad lowers the Sharpe ratio, away from the cliff. */
  lemma UniformPadLowers(xs: seq<real>, pad: real, num: Numerics)
    requires num.Ideal() && 0.0 < pad && !Degenerate(xs) && !Degenerate(Padded(xs, Uniform(|xs|, pad)))
    ensures SampleSharpe(Padded(xs, Uniform(|xs|, pad)), num) < SampleSharpe(xs, num)
  {
    var ys := Padded(xs, Uniform(|xs|, pad));
    assert |ys| == |xs| && xs != [];
    hide *;
    UniformStatistics(xs, pad);
    SharpeAtMostIff(xs, ys, num);
    EqualWeights(xs, ys);
  }

  /** Exactly when an equal pad lowers the p-value, which deflates for the same trials: if only the
      padded Sharpe ratio has a positive variance term, or both do and the curve bends between them. */
  lemma UniformPadSoftensIff(xs: seq<real>, pad: real, k: int, v: real, num: Numerics)
    requires num.Ideal() && 1 <= k && 0.0 <= v && 0.0 < pad
    requires !Degenerate(xs) && !Degenerate(Padded(xs, Uniform(|xs|, pad)))
    ensures ExpectedMaxSharpe(v, k, num).Success?
    ensures var ys := Padded(xs, Uniform(|xs|, pad));
            var s, t, b := SampleSharpe(ys, num), SampleSharpe(xs, num), ExpectedMaxSharpe(v, k, num).value;
            (DsrPValue(ys, k, v, num) < DsrPValue(xs, k, v, num)
             <==> && 0.0 < SeriesVarianceTerm(xs, s, num)
                  && (SeriesVarianceTerm(xs, t, num) <= 0.0
                      || Bends(b, s, t, SampleSkewness(xs, num), SampleKurtosis(xs))))
  {
    var ys := Padded(xs, Uniform(|xs|, pad));
    assert |ys| == |xs| && 2 <= |xs|;
    hide SampleSharpe, SampleSkewness, SampleKurtosis, VarianceTerm, ExpectedMaxSharpe, Padded, Degenerate, Bends,
      ProbabilisticSharpe;
    UniformPadKeepsShape(xs, pad, num);
    UniformPadLowers(xs, pad, num);
    ExpectedMaxSharpeMonotone(num, v, v, k, k);
    var s, t, b := SampleSharpe(ys, num), SampleSharpe(xs, num), ExpectedMaxSharpe(v, k, num).value;
    var skew, kurt := SampleSkewness(xs, num), SampleKurtosis(xs);
    if 0.0 < VarianceTerm(s, skew, kurt) && 0.0 < VarianceTerm(t, skew, kurt) {
      PsrRisesIff(num, b, s, t, |xs|, skew, kurt);
    }
  }

  /** It happens: these returns are so skewed that a quarter of a percent off each of them makes the
      evidence look better, although nothing was searched. */
  lemma UniformPadCanSoften(num: Numerics)
    requires num.Ideal()
    ensures Padded([1.0, 1.0, 1.0, 2.0], Uniform(4, 0.25)) == [0.75, 0.75, 0.75, 1.75]
    ensures DsrPValue([0.75, 0.75, 0.75, 1.75], 1, 0.0, num) < DsrPValue([1.0, 1.0, 1.0, 2.0], 1, 0.0, num)
  {
    var xs, ys := [1.0, 1.0, 1.0, 2.0], [0.75, 0.75, 0.75, 1.75];
    assert Padded(xs, Uniform(4, 0.25)) == ys;
    FourReturns(xs, 1.0);
    FourReturns(ys, 0.75);
    FourReturnsSharpe(xs, 1.0, num);
    FourReturnsSharpe(ys, 0.75, num);
    SkewAboveOne(xs, num);
    BendsBelow(SampleSkewness(xs, num));
    hide *;
    UniformPadSoftensIff(xs, 0.25, 1, 0.0, num);
  }

  lemma FourReturnsSharpe(xs: seq<real>, a: real, num: Numerics)
    requires num.Ideal() && 0.0 < a <= 1.0 && |xs| == 4 && Mean(xs) == a + 0.25 && PowerSum(xs, a + 0.25, 2) == 0.75
    ensures SampleSharpe(xs, num) == 2.0 * a + 0.5 && !Degenerate(xs)
  {
    hide Mean, PowerSum, Degenerate;
    RootOf(num, 0.25, 0.5);
    if Degenerate(xs) { DegenerateScoresZero(xs, num); }
  }

  lemma BendsBelow(skew: real)
    requires 1.0 < skew < 1.16
    ensures 0.0 < VarianceTerm(2.0, skew, 7.0 / 3.0) && Bends(0.0, 2.0, 2.5, skew, 7.0 / 3.0)
  {
    assert VarianceTerm(2.0, skew, 7.0 / 3.0) == 7.0 / 3.0 - 2.0 * skew;
    assert VarianceTerm(0.0, skew, 7.0 / 3.0) == 1.0;
    assert Chord(0.0, 2.0, 2.5, skew, 7.0 / 3.0) == 4.5 - 5.0 * skew;
  }

  lemma SkewAboveOne(xs: seq<real>, num: Numerics)
    requires num.Ideal() && |xs| == 4
    requires CentralMoment(xs, 2) == 0.1875 && CentralMoment(xs, 3) == 0.09375 && CentralMoment(xs, 4) == 0.08203125
    ensures 1.0 < SampleSkewness(xs, num) < 1.16 && SampleKurtosis(xs) == 7.0 / 3.0
  {
    hide CentralMoment;
  }

  /** The cliff itself: a series too flat for its level scores zero, and taking its level off as a
      uniform pad lifts it. */
  lemma PadLiftsOffTheCliff(num: Numerics)
    requires num.Ideal()
    ensures SampleSharpe([1000000000.0, 1000000001.0], num) == 0.0 < SampleSharpe([0.0, 1.0], num)
    ensures Padded([1000000000.0, 1000000001.0], Uniform(2, 1000000000.0)) == [0.0, 1.0]
  {
    var flat := [1000000000.0, 1000000001.0];
    TwoReturns(1000000000.0, 1000000001.0);
    TwoReturns(0.0, 1.0);
    assert Degenerate(flat) && !Degenerate([0.0, 1.0]);
    SharpeSquared(flat, num);
    SharpeSquared([0.0, 1.0], num);
    hide Mean, PowerSum, SampleSharpe;
    SignedSquareOrder(SampleSharpe(flat, num), 0.0);
    SignedSquareOrder(0.0, SampleSharpe(flat, num));
    SignedSquareOrder(SampleSharpe([0.0, 1.0], num), 0.0);
  }

  // ----- the probabilistic ratio against the observed one -------------------------------------

  /** Fixed moments: the two excesses over the benchmark b, weighed by the variance term at b and its
      slope there. As s and t approach each other it tends to
      2 * (s - b) * (1 - skew * (s + b) / 2 + (kurt - 1) / 4 * s * b). */
  function Chord(b: real, s: real, t: real, skew: real, kurt: real): real {
    ChordOver(VarianceTerm(b, skew, kurt), 2.0 * Times((kurt - 1.0) / 4.0, b) - skew, s - b, t - b)
  }

  function ChordOver(variance: real, slope: real, u: real, w: real): real {
    variance * (u + w) + slope * (u * w)
  }

  /** A product as a term, for proofs that only carry it around. */
  function Times(a: real, b: real): real {
    a * b
  }

  /** On this side of the benchmark the higher Sharpe ratio is the less convincing one. */
  predicate Bends(b: real, s: real, t: real, skew: real, kurt: real) {
    (b <= s && Chord(b, s, t, skew, kurt) < 0.0) || (t <= b && 0.0 < Chord(b, s, t, skew, kurt))
  }

  /** Exactly when a higher observed Sharpe ratio gives a higher probabilistic one, and so a lower
      p-value, at the same moments and number of returns: always across the benchmark; above it if the
      chord is positive, below it if the chord is negative. It gives a lower one in the opposite case. */
  lemma PsrRisesIff(num: Numerics, b: real, s: real, t: real, n: int, skew: real, kurt: real)
    requires num.Ideal() && 2 <= n && s < t && 0.0 < VarianceTerm(s, skew, kurt) && 0.0 < VarianceTerm(t, skew, kurt)
    ensures var below := ProbabilisticSharpe(s, b, n, skew, kurt, num).value;
            var rises := below < ProbabilisticSharpe(t, b, n, skew, kurt, num).value;
            && (b <= s ==> (rises <==> 0.0 < Chord(b, s, t, skew, kurt)))
            && (t <= b ==> (rises <==> Chord(b, s, t, skew, kurt) < 0.0))
            && (s < b < t ==> rises)
    ensures ProbabilisticSharpe(t, b, n, skew, kurt, num).value < ProbabilisticSharpe(s, b, n, skew, kurt, num).value
       <==> Bends(b, s, t, skew, kurt)
  {
    hide VarianceTerm, ProbabilisticSharpe, Chord, SignedSquare;
    var low := StatisticOf(num, s, b, n, skew, kurt);
    var high := StatisticOf(num, t, b, n, skew, kurt);
    if low < high { assert num.cdf(low) < num.cdf(high); } else { CdfMonotone(num, high, low); }
    assert num.cdf(low) < num.cdf(high) <==> low < high;
    if high < low { assert num.cdf(high) < num.cdf(low); } else { CdfMonotone(num, low, high); }
    assert num.cdf(high) < num.cdf(low) <==> high < low;
    hide *;
    var vs, vt := VarianceTerm(s, skew, kurt), VarianceTerm(t, skew, kurt);
    ChordIdentity(b, s, t, skew, kurt, s - b, t - b, t - s);
    SignedSquareOrder(high, low);
    SignedSquareOrder(low, high);
    CompareFractions(SignedSquare(high), SignedSquare(low), vt, vs, SignedSquare(t - b), SignedSquare(s - b),
      (n - 1) as real,
      SignedSquare(t - b) * vs, SignedSquare(s - b) * vt);
    CompareFractions(SignedSquare(low), SignedSquare(high), vs, vt, SignedSquare(s - b), SignedSquare(t - b),
      (n - 1) as real,
      SignedSquare(s - b) * vt, SignedSquare(t - b) * vs);
    ChordSign(s - b, t - b, t - s, vs, vt, Chord(b, s, t, skew, kurt), SignedSquare(s - b) * vt,
      SignedSquare(t - b) * vs);
  }

  lemma StatisticOf(num: Numerics, sr: real, b: real, n: int, skew: real, kurt: real) returns (z: real)
    requires num.Ideal() && 2 <= n && 0.0 < VarianceTerm(sr, skew, kurt)
    ensures ProbabilisticSharpe(sr, b, n, skew, kurt, num) == Success(num.cdf(z))
    ensures SignedSquare(z) * VarianceTerm(sr, skew, kurt) == ((n - 1) as real) * SignedSquare(sr - b)
  {
    hide *;
    PsrIsTheTestStatistic(sr, b, n, skew, kurt, num);
    z :| && ProbabilisticSharpe(sr, b, n, skew, kurt, num) == Success(num.cdf(z))
         && (z * z) * VarianceTerm(sr, skew, kurt) == ((sr - b) * (sr - b)) * ((n - 1) as real)
         && (0.0 < z <==> b < sr);
    SignsAgree(z, sr - b, VarianceTerm(sr, skew, kurt), (n - 1) as real);
  }

  lemma SignsAgree(z: real, excess: real, variance: real, n: real)
    requires 0.0 < variance && 0.0 < n && (z * z) * variance == (excess * excess) * n && (0.0 < z <==> 0.0 < excess)
    ensures SignedSquare(z) * variance == n * SignedSquare(excess)
  {
    if z == 0.0 && excess != 0.0 {
      SquarePositive(excess, excess * excess);
      ProductPositive(excess * excess, n, (excess * excess) * n);
    }
    if excess == 0.0 && z != 0.0 {
      SquarePositive(z, z * z);
      ProductPositive(z * z, variance, (z * z) * variance);
    }
  }

  function Crossed(u: real, w: real, vs: real, vt: real): real {
    (w * w) * vs - (u * u) * vt
  }

  lemma ChordIdentity(b: real, s: real, t: real, skew: real, kurt: real, u: real, w: real, step: real)
    requires u == s - b && w == t - b && step == t - s
    ensures Crossed(u, w, VarianceTerm(s, skew, kurt), VarianceTerm(t, skew, kurt))
        == Times(step, Chord(b, s, t, skew, kurt))
  {
    hide *;
    var q := (kurt - 1.0) / 4.0;
    var slope := 2.0 * Times(q, b) - skew;
    VarianceFrom(b, u, s, skew, kurt, q, slope);
    VarianceFrom(b, w, t, skew, kurt, q, slope);
    ChordIs(b, u, w, s, t, skew, kurt, q, slope);
    ChordCollect(u, w, VarianceTerm(b, skew, kurt), slope, q, VarianceTerm(s, skew, kurt), VarianceTerm(t, skew, kurt),
      Chord(b, s, t, skew, kurt), step);
  }

  lemma VarianceFrom(b: real, u: real, s: real, skew: real, kurt: real, q: real, slope: real)
    requires s == b + u && q == (kurt - 1.0) / 4.0 && slope == 2.0 * Times(q, b) - skew
    ensures VarianceTerm(s, skew, kurt) == VarianceTerm(b, skew, kurt) + Times(slope, u) + Times(q, Times(u, u))
  {
    assert VarianceTerm(s, skew, kurt) == 1.0 - skew * s + q * (s * s);
    assert VarianceTerm(b, skew, kurt) == 1.0 - skew * b + q * (b * b);
    assert s * s == b * b + 2.0 * (b * u) + u * u;
  }

  lemma ChordIs(b: real, u: real, w: real, s: real, t: real, skew: real, kurt: real, q: real, slope: real)
    requires u == s - b && w == t - b && q == (kurt - 1.0) / 4.0 && slope == 2.0 * Times(q, b) - skew
    ensures Chord(b, s, t, skew, kurt) == ChordOver(VarianceTerm(b, skew, kurt), slope, u, w)
  {
    hide VarianceTerm, ChordOver, Times;
  }

  lemma ChordCollect(u: real, w: real, v: real, slope: real, q: real, vs: real, vt: real, chord: real, step: real)
    requires vs == v + Times(slope, u) + Times(q, Times(u, u)) && vt == v + Times(slope, w) + Times(q, Times(w, w))
    requires chord == ChordOver(v, slope, u, w) && step == w - u
    ensures Crossed(u, w, vs, vt) == Times(step, chord)
  {
    hide *;
    CrossedIs(u, w, vs, vt);
    ChordOverIs(v, slope, u, w);
    Distribute(Times(w, w), vs, v, Times(slope, u), Times(q, Times(u, u)));
    Distribute(Times(u, u), vt, v, Times(slope, w), Times(q, Times(w, w)));
    Distribute(step, chord, Times(v, u + w), Times(slope, Times(u, w)), 0.0);
    CommonTerm(u, w, q);
    SlopeTerm(u, w, slope, step);
    LevelTerm(u, w, v, step);
    TimesZero(step);
  }

  lemma CrossedIs(u: real, w: real, vs: real, vt: real)
    ensures Crossed(u, w, vs, vt) == Times(Times(w, w), vs) - Times(Times(u, u), vt)
  {
  }

  lemma ChordOverIs(v: real, slope: real, u: real, w: real)
    ensures ChordOver(v, slope, u, w) == Times(v, u + w) + Times(slope, Times(u, w))
  {
  }

  lemma Distribute(a: real, sum: real, x: real, y: real, z: real)
    requires sum == x + y + z
    ensures Times(a, sum) == Times(a, x) + Times(a, y) + Times(a, z)
  {
  }

  lemma TimesZero(a: real)
    ensures Times(a, 0.0) == 0.0
  {
  }

  lemma CommonTerm(u: real, w: real, q: real)
    ensures Times(Times(w, w), Times(q, Times(u, u))) == Times(Times(u, u), Times(q, Times(w, w)))
  {
  }

  lemma SlopeTerm(u: real, w: real, slope: real, step: real)
    requires step == w - u
    ensures Times(Times(w, w), Times(slope, u)) - Times(Times(u, u), Times(slope, w))
        == Times(step, Times(slope, Times(u, w)))
  {
  }

  lemma LevelTerm(u: real, w: real, v: real, step: real)
    requires step == w - u
    ensures Times(Times(w, w), v) - Times(Times(u, u), v) == Times(step, Times(v, u + w))
  {
  }

  lemma ChordSign(u: real, w: real, step: real, vs: real, vt: real, chord: real, low: real, high: real)
    requires u < w && step == w - u && 0.0 < vs && 0.0 < vt && Crossed(u, w, vs, vt) == Times(step, chord)
    requires low == SignedSquare(u) * vt && high == SignedSquare(w) * vs
    ensures 0.0 <= u ==> (low < high <==> 0.0 < chord)
    ensures w <= 0.0 ==> (low < high <==> chord < 0.0)
    ensures u < 0.0 < w ==> low < high
    ensures 0.0 <= u ==> (high < low <==> chord < 0.0)
    ensures w <= 0.0 ==> (high < low <==> 0.0 < chord)
  {
    if u < 0.0 < w {
      var a, b := SignedSquare(u), SignedSquare(w);
      SquarePositive(u, -a);
      SquarePositive(w, b);
      ProductPositive(-a, vt, -low);
      ProductPositive(b, vs, high);
    } else {
      var product := step * chord;
      assert 0.0 <= u ==> high - low == product;
      assert w <= 0.0 ==> low - high == product;
      if 0.0 < chord { ProductPositive(step, chord, product); }
      if chord < 0.0 { ProductPositive(step, -chord, -product); }
    }
  }
}
