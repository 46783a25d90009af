/** Effective number of trials and the sweeps around it (research/validation/effective_k.py). */
module EffectiveK {
  import opened RealArithmetic
  import opened Moments
  import opened Sorting

  const RETROSPECTIVE_K_SWEEP: set<int> := {115, 500, 2000}
  const MIN_VARIANCE_SR := 0.01

  datatype EffectiveKEstimate = EffectiveKEstimate(pointEstimate: int, gatingK: int, sweep: seq<int>) {
    /** What every constructor of an estimate establishes. */
    ghost predicate Valid() {
      && 1 <= pointEstimate
      && sweep == BuildSweep(pointEstimate)
      && gatingK == MaxInt(sweep)
    }
  }

  function MaxInt(s: seq<int>): (m: int)
    requires s != []
    ensures m in s
    ensures forall x :: x in s ==> x <= m
  {
    if |s| == 1 then s[0] else
    assert s == [s[0]] + s[1..];
    MaxOfTwo(s[0], MaxInt(s[1..]))
  }

  function MaxReal(s: seq<real>): (m: real)
    requires s != []
    ensures m in s
    ensures forall x :: x in s ==> x <= m
  {
    if |s| == 1 then s[0] else
    assert s == [s[0]] + s[1..];
    var rest := MaxReal(s[1..]);
    if s[0] < rest then rest else s[0]
  }

  function BuildSweep(pointEstimate: int): (s: seq<int>)
    ensures s != []
    ensures forall k :: k in s <==> k in RETROSPECTIVE_K_SWEEP || k == MaxOfTwo(1, pointEstimate)
    ensures Ascending(s)
  {
    var values := RETROSPECTIVE_K_SWEEP + {MaxOfTwo(1, pointEstimate)};
    SortedSetAscending(values);
    assert 2000 in SortedSet(values);
    SortedSet(values)
  }

  function PointEstimate(combosTotal: int, pairs: real): int {
    MaxOfTwo(1, MaxOfTwo(combosTotal, RoundHalfEven(pairs)))
  }

  /** One combination per hypothesis and symbol; negative inputs count as none. */
  function PairCount(hypotheses: int, symbolsAvg: real): real {
    MaxOfTwo(0, hypotheses) as real * (if symbolsAvg > 0.0 then symbolsAvg else 0.0)
  }

  function EstimatePortfolioK(hypotheses: int, symbolsAvg: real, combosRecorded: int, combosEstimated: int)
    : (e: EffectiveKEstimate)
    ensures e.Valid()
  {
    var combosTotal := MaxOfTwo(0, combosRecorded) + MaxOfTwo(0, combosEstimated);
    var point := PointEstimate(combosTotal, PairCount(hypotheses, symbolsAvg));
    EffectiveKEstimate(point, MaxInt(BuildSweep(point)), BuildSweep(point))
  }

  function RegimeConditionalK(base: EffectiveKEstimate, nRegimeBuckets: int): EffectiveKEstimate {
    var point := MaxOfTwo(1, base.pointEstimate * MaxOfTwo(1, nRegimeBuckets));
    EffectiveKEstimate(point, MaxInt(BuildSweep(point)), BuildSweep(point))
  }

  /** The point estimate is the largest of three counts: one trial, the parameter combinations, and the
      hypothesis-symbol pairs to the nearest integer. */
  lemma PointEstimateIsTheLargestCount(hypotheses: int, symbolsAvg: real, combosRecorded: int, combosEstimated: int)
    ensures var k := EstimatePortfolioK(hypotheses, symbolsAvg, combosRecorded, combosEstimated).pointEstimate;
            var combos := MaxOfTwo(0, combosRecorded) + MaxOfTwo(0, combosEstimated);
            var pairs := PairCount(hypotheses, symbolsAvg);
            && 1 <= k && combos <= k && pairs - 0.5 <= k as real
            && (k == 1 || k == combos || -0.5 <= k as real - pairs <= 0.5)
  {
    hide BuildSweep, MaxInt, PointEstimate, PairCount;
    LargestOfThree(MaxOfTwo(0, combosRecorded) + MaxOfTwo(0, combosEstimated), PairCount(hypotheses, symbolsAvg));
  }

  lemma LargestOfThree(combos: int, pairs: real)
    ensures var k := PointEstimate(combos, pairs);
            && 1 <= k && combos <= k && pairs - 0.5 <= k as real
            && (k == 1 || k == combos || -0.5 <= k as real - pairs <= 0.5)
  {
  }

  /** The sweeps: the three mandatory values of K and the point estimate, each once and ascending; and half,
      once and twice the variance estimate, floored, likewise each once and ascending. */
  lemma SweepsHold(p: int, v: real)
    requires 1 <= p
    ensures forall k :: k in BuildSweep(p) <==> k in {115, 500, 2000, p}
    ensures forall i, j :: 0 <= i < j < |BuildSweep(p)| ==> BuildSweep(p)[i] < BuildSweep(p)[j]
    ensures forall x :: x in VarianceSrSweep(v) <==> exists m :: m in [0.5, 1.0, 2.0] && x == LargerReal(0.01, v * m)
    ensures forall i, j :: 0 <= i < j < |VarianceSrSweep(v)| ==> VarianceSrSweep(v)[i] < VarianceSrSweep(v)[j]
  {
    VarianceSweepAscends(v);
    hide BuildSweep, VarianceSrSweep;
    var s := BuildSweep(p);
    forall i, j | 0 <= i < j < |s| ensures s[i] < s[j] {
    }
    forall x ensures x in VarianceSrSweep(v) <==> exists m :: m in [0.5, 1.0, 2.0] && x == LargerReal(0.01, v * m) {
      var ms := [0.5, 1.0, 2.0];
      assert ms[0] in ms && ms[1] in ms && ms[2] in ms;
    }
  }

  /** The gating K is the largest K of the sweep, and at least the mandatory 2000. */
  lemma SweepBounds(p: int)
    ensures forall k :: k in BuildSweep(p) ==> 1 <= k <= MaxInt(BuildSweep(p))
    ensures MaxInt(BuildSweep(p)) == MaxOfTwo(2000, p)
  {
    hide BuildSweep, MaxInt;
    assert 2000 in BuildSweep(p) && MaxOfTwo(1, p) in BuildSweep(p);
  }

  lemma GatingDominates(e: EffectiveKEstimate)
    requires e.Valid()
    ensures forall k :: k in e.sweep ==> 1 <= k <= e.gatingK
    ensures 1 <= e.pointEstimate <= e.gatingK && 2000 <= e.gatingK
  {
    hide BuildSweep, MaxInt;
    SweepBounds(e.pointEstimate);
  }

  lemma ScalingGrows(p: int, b: int, product: int)
    requires 1 <= p && 1 <= b && product == p * b
    ensures p <= product
  {
    assert 0 <= p * (b - 1);
  }

  /** Each trial counts once for every regime bucket searched. */
  lemma RegimeTrialsMultiply(base: EffectiveKEstimate, n: int)
    requires base.Valid()
    ensures RegimeConditionalK(base, n).pointEstimate == base.pointEstimate * (if n < 1 then 1 else n)
    ensures RegimeConditionalK(base, n).gatingK == MaxOfTwo(2000, base.pointEstimate * (if n < 1 then 1 else n))
  {
    hide BuildSweep, MaxInt;
    var b := MaxOfTwo(1, n);
    ScalingGrows(base.pointEstimate, b, base.pointEstimate * b);
    SweepBounds(base.pointEstimate * b);
  }

  /** Counting regime buckets as trials never lowers either K. */
  lemma RegimeScalingRaisesK(base: EffectiveKEstimate, nRegimeBuckets: int)
    requires base.Valid()
    ensures var scaled := RegimeConditionalK(base, nRegimeBuckets);
            && scaled.Valid()
            && base.pointEstimate <= scaled.pointEstimate
            && base.gatingK <= scaled.gatingK
  {
    hide BuildSweep, MaxInt;
    var scaled := RegimeConditionalK(base, nRegimeBuckets);
    ScalingGrows(base.pointEstimate, MaxOfTwo(1, nRegimeBuckets), base.pointEstimate * MaxOfTwo(1, nRegimeBuckets));
    SweepBounds(base.pointEstimate);
    SweepBounds(scaled.pointEstimate);
  }

  function VarianceSrPointEstimate(sharpes: seq<real>): (v: real)
    ensures MIN_VARIANCE_SR <= v
  {
    if |sharpes| < 2 then MIN_VARIANCE_SR else
    var variance := PowerSum(sharpes, Mean(sharpes), 2) / ((|sharpes| - 1) as real);
    if variance > MIN_VARIANCE_SR then variance else MIN_VARIANCE_SR
  }

  /** The sum of squared distances from x. */
  function SquaredDistances(s: seq<real>, x: real): real {
    if s == [] then 0.0 else (s[0] - x) * (s[0] - x) + SquaredDistances(s[1..], x)
  }

  /** The same over every pair. */
  function PairDistances(s: seq<real>): real {
    if s == [] then 0.0 else SquaredDistances(s[1..], s[0]) + PairDistances(s[1..])
  }

  function OrderedPairs(s: seq<real>): real {
    (|s| as real) * ((|s| - 1) as real)
  }

  /** No mean needs to be taken: the point estimate is the average over the ordered pairs of strategies
      of half their squared distance, floored (each unordered pair contributes twice its half). */
  lemma {:induction false} VarianceIsPairwise(s: seq<real>)
    requires 2 <= |s|
    ensures 0.0 < OrderedPairs(s) && VarianceSrPointEstimate(s) == Floored(PairDistances(s) / OrderedPairs(s))
  {
    hide *;
    PointEstimateIs(s);
    PairSquares(s);
    PairsAre(s);
    PairQuotient(PairDistances(s), PowerSum(s, Mean(s), 2), |s| as real, (|s| - 1) as real, OrderedPairs(s));
  }

  lemma PairsAre(s: seq<real>)
    ensures OrderedPairs(s) == (|s| as real) * ((|s| - 1) as real)
  {
  }

  lemma {:induction false} PairSquares(s: seq<real>)
    requires s != []
    ensures PairDistances(s) == (|s| as real) * PowerSum(s, Mean(s), 2)
  {
    hide *;
    PairwiseAbout(s, Mean(s));
    DeviationsSumToZero(s);
  }

  lemma {:induction false} PointEstimateIs(s: seq<real>)
    requires 2 <= |s|
    ensures VarianceSrPointEstimate(s) == Floored(PowerSum(s, Mean(s), 2) / ((|s| - 1) as real))
  {
    hide Mean, PowerSum;
  }

  lemma PairQuotient(distances: real, squares: real, n: real, n1: real, pairs: real)
    requires 0.0 < n && 0.0 < n1 && pairs == n * n1 && distances == n * squares
    ensures 0.0 < pairs && distances / pairs == squares / n1
  {
    ProductPositive(n, n1, pairs);
    var q := squares / n1;
    DivTimes(squares, n1);
    assert distances == q * pairs by { assert n * (q * n1) == q * (n * n1); }
    DivTimes(distances, pairs);
    CancelEqual(distances / pairs, q, pairs);
  }

  lemma {:induction false} FirstDeviations(s: seq<real>, c: real)
    requires s != []
    ensures PowerSum(s, c, 2) == (s[0] - c) * (s[0] - c) + PowerSum(s[1..], c, 2)
    ensures PowerSum(s, c, 1) == (s[0] - c) + PowerSum(s[1..], c, 1)
    ensures |s| as real == |s[1..]| as real + 1.0
  {
    PowerUnfold(s[0] - c);
  }

  lemma {:induction false} FirstDistances(s: seq<real>, y: real)
    requires s != []
    ensures SquaredDistances(s, y) == (s[0] - y) * (s[0] - y) + SquaredDistances(s[1..], y)
    ensures PairDistances(s) == SquaredDistances(s[1..], s[0]) + PairDistances(s[1..])
  {
  }

  lemma {:induction false} NoDistances(s: seq<real>, y: real, c: real)
    requires s == []
    ensures SquaredDistances(s, y) == 0.0 == PairDistances(s) && PowerSum(s, c, 1) == 0.0 == PowerSum(s, c, 2)
  {
  }

  /** About any centre: n * S2 - S1^2 is the sum over the pairs. */
  lemma {:induction false} PairwiseAbout(s: seq<real>, c: real)
    ensures PairDistances(s) == (|s| as real) * PowerSum(s, c, 2) - PowerSum(s, c, 1) * PowerSum(s, c, 1)
  {
    hide *;
    if s == [] {
      NoDistances(s, c, c);
    } else {
      PairwiseAbout(s[1..], c);
      DistancesAbout(s[1..], s[0], c);
      FirstDeviations(s, c);
      FirstDistances(s, c);
      var x, n, s1, s2 := s[0] - c, |s[1..]| as real, PowerSum(s[1..], c, 1), PowerSum(s[1..], c, 2);
    }
  }

  lemma {:induction false} DistancesAbout(s: seq<real>, y: real, c: real)
    ensures SquaredDistances(s, y)
         == PowerSum(s, c, 2) - 2.0 * ((y - c) * PowerSum(s, c, 1)) + (|s| as real) * ((y - c) * (y - c))
  {
    hide *;
    if s == [] {
      NoDistances(s, y, c);
    } else {
      DistancesAbout(s[1..], y, c);
      FirstDeviations(s, c);
      FirstDistances(s, y);
    }
  }

  function Floored(v: real): real {
    if v > MIN_VARIANCE_SR then v else MIN_VARIANCE_SR
  }

  /** Python's set literal: repeated values collapse. */
  function Distinct(s: seq<real>): seq<real> {
    if s == [] then [] else if s[0] in s[1..] then Distinct(s[1..]) else [s[0]] + Distinct(s[1..])
  }

  lemma {:induction false} DistinctKeepsElements(s: seq<real>)
    ensures forall x :: x in Distinct(s) <==> x in s
    ensures Pairwise(Distinct(s), (x, y) => x != y)
  {
    if s != [] {
      DistinctKeepsElements(s[1..]);
      assert s == [s[0]] + s[1..];
      var rest := Distinct(s[1..]);
      forall i, j | 0 <= i < j < |Distinct(s)| ensures Distinct(s)[i] != Distinct(s)[j] {
        if s[0] in s[1..] {
          assert ((x: real, y: real) => x != y)(rest[i], rest[j]);
        } else if 0 < i {
          assert ((x: real, y: real) => x != y)(rest[i - 1], rest[j - 1]);
        } else {
          assert rest[j - 1] in rest;
        }
      }
    }
  }

  lemma VarianceSweepAscends(point: real)
    ensures var s := VarianceSrSweep(point); forall i, j :: 0 <= i < j < |s| ==> s[i] < s[j]
  {
    var raw := [Floored(point * 0.5), Floored(point * 1.0), Floored(point * 2.0)];
    var le, differ := (x: real, y: real) => x <= y, (x: real, y: real) => x != y;
    DistinctKeepsElements(raw);
    SortStable(Distinct(raw), le, differ);
    var s := Sort(Distinct(raw), le);
    forall i, j | 0 <= i < j < |s| ensures s[i] < s[j] {
      assert StableOrder(le, differ)(s[i], s[j]);
    }
  }

  function VarianceSrSweep(point: real): (sweep: seq<real>)
    ensures sweep != []
    ensures forall v :: v in sweep <==> v in [Floored(point * 0.5), Floored(point * 1.0), Floored(point * 2.0)]
  {
    var raw := [Floored(point * 0.5), Floored(point * 1.0), Floored(point * 2.0)];
    DistinctKeepsElements(raw);
    SortKeepsElements(Distinct(raw), (x: real, y: real) => x <= y);
    assert raw[0] in raw;
    Sort(Distinct(raw), (x: real, y: real) => x <= y)
  }

  /** Every swept variance lies between the floor and the gating (largest) one, and so does the
      point estimate, unless it is itself below the floor. */
  lemma VarianceSweepBounds(point: real)
    ensures forall v :: v in VarianceSrSweep(point) ==> MIN_VARIANCE_SR <= v <= MaxReal(VarianceSrSweep(point))
    ensures point <= MaxReal(VarianceSrSweep(point))
  {
    hide VarianceSrSweep, MaxReal;
    assert Floored(point * 1.0) in VarianceSrSweep(point);
  }
}
