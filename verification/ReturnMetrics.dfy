/**
 Profit factor and maximum drawdown of a per-trade return series in percent
 (scripts/retrospective_dsr.py, 217-260; scripts/validation_report.py, 158-167).
 */
module ReturnMetrics {
  import opened RealArithmetic
  import opened Moments

  // ----- profit factor -----------------------------------------------------------

  /** Python's float with +inf, the value of a series that wins and never loses. */
  datatype ProfitFactor = Finite(ratio: real) | Infinite {
    predicate AtMost(other: ProfitFactor) {
      other.Infinite? || (Finite? && ratio <= other.ratio)
    }

    predicate AtLeast(threshold: real) {
      Infinite? || threshold <= ratio
    }
  }

  function GrossWins(xs: seq<real>): real {
    if xs == [] then 0.0 else (if xs[0] > 0.0 then xs[0] else 0.0) + GrossWins(xs[1..])
  }

  function GrossLosses(xs: seq<real>): real {
    if xs == [] then 0.0 else (if xs[0] <= 0.0 then xs[0] else 0.0) + GrossLosses(xs[1..])
  }

  function ProfitFactorOf(winsSum: real, lossesSum: real): ProfitFactor {
    var absLosses := Abs(lossesSum);
    if absLosses == 0.0 then (if winsSum > 0.0 then Infinite else Finite(0.0))
    else Finite(winsSum / absLosses)
  }

  function ProfitFactorFromReturns(xs: seq<real>): ProfitFactor {
    ProfitFactorOf(GrossWins(xs), GrossLosses(xs))
  }

  /** Every return of `ys` is at most the return of `xs` at the same position. */
  ghost predicate PointwiseAtMost(ys: seq<real>, xs: seq<real>) {
    |ys| == |xs| && forall k :: 0 <= k < |xs| ==> ys[k] <= xs[k]
  }

  lemma {:induction false} GrossSumsMonotone(ys: seq<real>, xs: seq<real>)
    requires PointwiseAtMost(ys, xs)
    ensures 0.0 <= GrossWins(ys) <= GrossWins(xs)
    ensures GrossLosses(ys) <= GrossLosses(xs) <= 0.0
  {
    if xs != [] {
      assert ys[0] <= xs[0];
      assert PointwiseAtMost(ys[1..], xs[1..]);
      GrossSumsMonotone(ys[1..], xs[1..]);
    }
  }

  lemma RatioMonotone(a: real, b: real, c: real, d: real)
    requires 0.0 <= a <= b && 0.0 < d <= c
    ensures a / c <= b / d
  {
    var p, q := a / c, b / d;
    DivTimes(a, c);
    DivTimes(b, d);
  }

  /** Lower returns never raise the unclamped profit factor. */
  lemma ProfitFactorMonotone(ys: seq<real>, xs: seq<real>)
    requires PointwiseAtMost(ys, xs)
    ensures ProfitFactorFromReturns(ys).AtMost(ProfitFactorFromReturns(xs))
  {
    GrossSumsMonotone(ys, xs);
    if GrossLosses(ys) != 0.0 && GrossLosses(xs) != 0.0 {
      RatioMonotone(GrossWins(ys), GrossWins(xs), -GrossLosses(ys), -GrossLosses(xs));
    }
  }

  function AbsoluteSum(xs: seq<real>): real {
    if xs == [] then 0.0 else Abs(xs[0]) + AbsoluteSum(xs[1..])
  }

  /** Wins and losses are what the returns add up to, apart by sign. */
  lemma {:induction false} WinsAndLosses(xs: seq<real>)
    ensures 0.0 <= GrossWins(xs) && GrossLosses(xs) <= 0.0
    ensures GrossWins(xs) + GrossLosses(xs) == Sum(xs) && GrossWins(xs) - GrossLosses(xs) == AbsoluteSum(xs)
  {
    if xs != [] { WinsAndLosses(xs[1..]); }
  }

  /** What a profit factor threshold asks for: wins of at least that multiple of the losses, and some. */
  lemma {:induction false} ProfitFactorAtLeastIff(xs: seq<real>, threshold: real)
    requires 0.0 < threshold
    ensures ProfitFactorFromReturns(xs).AtLeast(threshold)
       <==> 0.0 < GrossWins(xs) && threshold * -GrossLosses(xs) <= GrossWins(xs)
    ensures ProfitFactorFromReturns(xs).Infinite? <==> GrossLosses(xs) == 0.0 < GrossWins(xs)
    ensures !ProfitFactorFromReturns(xs).AtLeast(threshold) ==> ProfitFactorFromReturns(xs).Finite?
  {
    WinsAndLosses(xs);
    hide GrossWins, GrossLosses, Sum, AbsoluteSum;
    var wins, losses := GrossWins(xs), -GrossLosses(xs);
    if losses != 0.0 { RatioAtLeastIff(wins, losses, threshold, wins / losses, threshold * losses); }
  }

  lemma RatioAtLeastIff(a: real, b: real, t: real, ratio: real, bound: real)
    requires 0.0 <= a && 0.0 < b && 0.0 < t && ratio == a / b && bound == t * b
    ensures t <= ratio <==> bound <= a
    ensures bound <= a ==> 0.0 < a
  {
    DivTimes(a, b);
    ProductPositive(t, b, bound);
    if t <= ratio { ScaledNonNegative(ratio - t, b, a - bound); } else { ProductPositive(t - ratio, b, bound - a); }
  }

  // ----- maximum drawdown -----------------------------------------------------------

  function Compound(equity: real, returnPct: real): real {
    equity * (1.0 + returnPct / 100.0)
  }

  function BelowPeakPct(peak: real, equity: real): real
    requires peak != 0.0
  {
    (peak - equity) / peak * 100.0
  }

  /** The loop variables of the drawdown scan. */
  datatype Curve = Curve(equity: real, peak: real, maxDd: real)

  function CurveStep(s: Curve, r: real): Curve {
    var equity := Compound(s.equity, r);
    var peak := if equity > s.peak then equity else s.peak;
    var dd := if peak > 0.0 then BelowPeakPct(peak, equity) else s.maxDd;
    Curve(equity, peak, if dd > s.maxDd then dd else s.maxDd)
  }

  function CurveAfter(xs: seq<real>, n: nat): Curve
    requires n <= |xs|
  {
    if n == 0 then Curve(1.0, 1.0, 0.0) else CurveStep(CurveAfter(xs, n - 1), xs[n - 1])
  }

  function MaxDrawdown(xs: seq<real>): real {
    CurveAfter(xs, |xs|).maxDd
  }

  /** The source's single pass with its three running variables. */
  method MaxDrawdownPctFromReturns(returnsPct: seq<real>) returns (maxDd: real)
    ensures maxDd == MaxDrawdown(returnsPct)
  {
    hide Compound, BelowPeakPct;
    var equity, peak := 1.0, 1.0;
    maxDd := 0.0;
    for n := 0 to |returnsPct|
      invariant Curve(equity, peak, maxDd) == CurveAfter(returnsPct, n)
    {
      equity := Compound(equity, returnsPct[n]);
      if equity > peak {
        peak := equity;
      }
      if peak > 0.0 {
        var dd := BelowPeakPct(peak, equity);
        if dd > maxDd {
          maxDd := dd;
        }
      }
    }
  }

  /** Compounded growth of equity over the trades i, ..., j - 1. */
  function Growth(xs: seq<real>, i: nat, j: nat): real
    requires i <= j <= |xs|
  {
    if i == j then 1.0 else Compound(Growth(xs, i, j - 1), xs[j - 1])
  }

  /** The percentage of equity lost between trade i and trade j. */
  function LossPct(xs: seq<real>, i: nat, j: nat): real
    requires i <= j <= |xs|
  {
    (1.0 - Growth(xs, i, j)) * 100.0
  }

  ghost predicate IsPeak(xs: seq<real>, p: nat, j: nat)
    requires j <= |xs|
  {
    p <= j && forall i: nat :: i <= j ==> Growth(xs, 0, i) <= Growth(xs, 0, p)
  }

  /** The percentage below the running peak p at trade j. */
  function LossFromPeak(xs: seq<real>, p: nat, j: nat): real
    requires p <= j <= |xs| && Growth(xs, 0, p) != 0.0
  {
    BelowPeakPct(Growth(xs, 0, p), Growth(xs, 0, j))
  }

  /** `p, j` witness that the drawdown up to trade n is the loss at j from the peak p. */
  ghost predicate Witness(xs: seq<real>, n: nat, p: nat, j: nat)
    requires n <= |xs|
  {
    && p <= j <= n && IsPeak(xs, p, j) && Growth(xs, 0, p) > 0.0
    && CurveAfter(xs, n).maxDd == LossFromPeak(xs, p, j)
  }

  lemma {:induction false} CurveTracksPeak(xs: seq<real>, n: nat)
    requires n <= |xs|
    ensures CurveAfter(xs, n).equity == Growth(xs, 0, n)
    ensures CurveAfter(xs, n).peak >= 1.0
    ensures forall i: nat :: i <= n ==> Growth(xs, 0, i) <= CurveAfter(xs, n).peak
    ensures exists p: nat :: p <= n && Growth(xs, 0, p) == CurveAfter(xs, n).peak
  {
    hide Compound, BelowPeakPct;
    if n == 0 {
      assert Growth(xs, 0, 0) == 1.0;
    } else {
      CurveTracksPeak(xs, n - 1);
      var before, after := CurveAfter(xs, n - 1), CurveAfter(xs, n);
      assert after == CurveStep(before, xs[n - 1]);
      if after.peak == before.peak {
        var p: nat :| p <= n - 1 && Growth(xs, 0, p) == before.peak;
        assert p <= n;
      } else {
        assert Growth(xs, 0, n) == after.peak;
      }
    }
  }

  /** For every series: the drawdown is the worst loss against the running peak. */
  lemma {:induction false} DrawdownIsWorstPeakLoss(xs: seq<real>, n: nat)
    requires n <= |xs|
    ensures forall p: nat, j: nat | j <= n && IsPeak(xs, p, j) && Growth(xs, 0, p) > 0.0 ::
              LossFromPeak(xs, p, j) <= CurveAfter(xs, n).maxDd
    ensures exists p: nat, j: nat :: Witness(xs, n, p, j)
  {
    hide Compound, BelowPeakPct;
    CurveTracksPeak(xs, n);
    var after := CurveAfter(xs, n);
    var top: nat :| top <= n && Growth(xs, 0, top) == after.peak;
    assert IsPeak(xs, top, n);
    if n == 0 {
      AtPeakNothingLost(1.0);
      assert Witness(xs, 0, 0, 0);
    } else {
      DrawdownIsWorstPeakLoss(xs, n - 1);
      var before := CurveAfter(xs, n - 1);
      assert after == CurveStep(before, xs[n - 1]);
      if after.maxDd == before.maxDd {
        var p: nat, j: nat :| Witness(xs, n - 1, p, j);
        assert Witness(xs, n, p, j);
      } else {
        assert Witness(xs, n, top, n);
      }
      forall p: nat, j: nat | j <= n && IsPeak(xs, p, j) && Growth(xs, 0, p) > 0.0
        ensures LossFromPeak(xs, p, j) <= after.maxDd
      {
        if j == n {
          assert Growth(xs, 0, p) <= after.peak;
          assert Growth(xs, 0, top) <= Growth(xs, 0, p);
        }
      }
    }
  }

  /** No trade loses more than everything, so equity never turns negative. */
  ghost predicate NoWipeout(xs: seq<real>) {
    forall k :: 0 <= k < |xs| ==> -100.0 <= xs[k]
  }

  lemma {:induction false} GrowthNonNegative(xs: seq<real>, i: nat, j: nat)
    requires i <= j <= |xs| && forall k :: i <= k < j ==> -100.0 <= xs[k]
    ensures 0.0 <= Growth(xs, i, j)
    decreases j
  {
    if i < j {
      GrowthNonNegative(xs, i, j - 1);
      assert 0.0 <= 1.0 + xs[j - 1] / 100.0;
    }
  }

  lemma {:induction false} GrowthSplits(xs: seq<real>, i: nat, j: nat, k: nat)
    requires i <= j <= k <= |xs|
    ensures Growth(xs, i, k) == Growth(xs, i, j) * Growth(xs, j, k)
    decreases k
  {
    hide Compound;
    if j < k {
      GrowthSplits(xs, i, j, k - 1);
      CompoundScales(Growth(xs, i, j), Growth(xs, j, k - 1), xs[k - 1], Growth(xs, i, k - 1), Growth(xs, j, k));
    } else {
    }
  }

  lemma CompoundScales(a: real, b: real, r: real, ab: real, c: real)
    requires ab == a * b && c == Compound(b, r)
    ensures Compound(ab, r) == a * c
  {
    var f := 1.0 + r / 100.0;
    assert (a * b) * f == a * (b * f);
  }

  lemma {:induction false} LossFromPeakIsLossPct(xs: seq<real>, p: nat, j: nat)
    requires p <= j <= |xs| && Growth(xs, 0, p) > 0.0
    ensures LossFromPeak(xs, p, j) == LossPct(xs, p, j)
  {
    hide Growth;
    GrowthSplits(xs, 0, p, j);
    RelativeLoss(Growth(xs, 0, p), Growth(xs, p, j), Growth(xs, 0, j));
  }

  lemma RelativeLoss(g: real, h: real, e: real)
    requires g > 0.0 && e == g * h
    ensures BelowPeakPct(g, e) == (1.0 - h) * 100.0
  {
    DivTimes(g - e, g);
    CancelEqual((g - e) / g, 1.0 - h, g);
  }

  lemma AtPeakNothingLost(peak: real)
    requires peak > 0.0
    ensures BelowPeakPct(peak, peak) == 0.0
  {
  }

  /** For every series the drawdown is the loss between some two points in time, and no two points over
      which the growth is not negative show a larger one; so with no wipe-out it is the worst loss. */
  lemma {:induction false} DrawdownIsWorstLoss(xs: seq<real>)
    ensures exists i: nat, j: nat :: i <= j <= |xs| && LossPct(xs, i, j) == MaxDrawdown(xs)
    ensures forall i: nat, j: nat | i <= j <= |xs| && 0.0 <= Growth(xs, i, j) :: LossPct(xs, i, j) <= MaxDrawdown(xs)
    ensures NoWipeout(xs) ==> forall i: nat, j: nat | i <= j <= |xs| :: LossPct(xs, i, j) <= MaxDrawdown(xs)
  {
    hide Growth, CurveAfter;
    var n := |xs|;
    DrawdownIsWorstPeakLoss(xs, n);
    var p: nat, j: nat :| Witness(xs, n, p, j);
    LossFromPeakIsLossPct(xs, p, j);
    assert LossPct(xs, p, j) == MaxDrawdown(xs);
    forall i: nat, j: nat | i <= j <= |xs| && 0.0 <= Growth(xs, i, j) ensures LossPct(xs, i, j) <= MaxDrawdown(xs) {
      LossBelowDrawdown(xs, i, j);
    }
    if NoWipeout(xs) {
      forall i: nat, j: nat | i <= j <= |xs| ensures LossPct(xs, i, j) <= MaxDrawdown(xs) {
        GrowthNonNegative(xs, i, j);
      }
    }
  }

  lemma {:induction false} LossBelowDrawdown(xs: seq<real>, i: nat, j: nat)
    requires i <= j <= |xs| && 0.0 <= Growth(xs, i, j)
    ensures LossPct(xs, i, j) <= MaxDrawdown(xs)
  {
    hide CurveAfter, Growth, Compound, BelowPeakPct;
    DrawdownIsWorstPeakLoss(xs, |xs|);
    var p := PeakExists(xs, j);
    LossFromPeakIsLossPct(xs, p, j);
    GrowthSplits(xs, 0, p, j);
    GrowthSplits(xs, 0, i, j);
  }

  /** What a scan for the worst loss between any two points keeps: the least and the greatest growth up
      to now, over all starting points, and the least growth met. */
  datatype Extremes = Extremes(low: real, high: real, worst: real)

  function Least(a: real, b: real): real {
    if a < b then a else b
  }

  function ExtremesStep(s: Extremes, r: real): Extremes {
    var a, b := Compound(s.low, r), Compound(s.high, r);
    var low, high := Least(1.0, Least(a, b)), LargerReal(1.0, LargerReal(a, b));
    Extremes(low, high, Least(s.worst, low))
  }

  function ExtremesAfter(xs: seq<real>, n: nat): Extremes
    requires n <= |xs|
  {
    if n == 0 then Extremes(1.0, 1.0, 1.0) else ExtremesStep(ExtremesAfter(xs, n - 1), xs[n - 1])
  }

  /** The worst loss between any two points, from one scan. */
  function WorstLossPct(xs: seq<real>): real {
    (1.0 - ExtremesAfter(xs, |xs|).worst) * 100.0
  }

  lemma CompoundBetween(low: real, x: real, high: real, r: real)
    requires low <= x <= high
    ensures Least(Compound(low, r), Compound(high, r)) <= Compound(x, r)
    ensures Compound(x, r) <= LargerReal(Compound(low, r), Compound(high, r))
  {
    CompoundOrdered(low, x, r);
    CompoundOrdered(x, high, r);
    hide Compound;
  }

  lemma CompoundOrdered(low: real, high: real, r: real)
    requires low <= high
    ensures if -100.0 <= r then Compound(low, r) <= Compound(high, r) else Compound(high, r) <= Compound(low, r)
  {
    var f := 1.0 + r / 100.0;
    var step := (high - low) * f;
    assert Compound(high, r) == Compound(low, r) + step;
    if 0.0 <= f { ScaledNonNegative(high - low, f, step); } else { ScaledNonNegative(high - low, -f, -step); }
  }

  ghost predicate GrowthIs(xs: seq<real>, i: nat, j: nat, g: real) {
    i <= j <= |xs| && Growth(xs, i, j) == g
  }

  lemma {:induction false} ExtremesAreMet(xs: seq<real>, n: nat)
    requires n <= |xs|
    ensures exists i: nat :: GrowthIs(xs, i, n, ExtremesAfter(xs, n).low)
    ensures exists i: nat :: GrowthIs(xs, i, n, ExtremesAfter(xs, n).high)
    ensures exists i: nat, j: nat :: j <= n && GrowthIs(xs, i, j, ExtremesAfter(xs, n).worst)
  {
    hide Compound;
    if n == 0 {
      assert GrowthIs(xs, n, n, ExtremesAfter(xs, n).low);
    } else {
      ExtremesAreMet(xs, n - 1);
      var before, after, r := ExtremesAfter(xs, n - 1), ExtremesAfter(xs, n), xs[n - 1];
      var i: nat :| GrowthIs(xs, i, n - 1, before.low);
      var j: nat :| GrowthIs(xs, j, n - 1, before.high);
      assert GrowthIs(xs, i, n, Compound(before.low, r));
      assert GrowthIs(xs, j, n, Compound(before.high, r));
      assert GrowthIs(xs, n, n, 1.0);
      var low: nat := if after.low == 1.0 then n else if after.low == Compound(before.low, r) then i else j;
      var high: nat := if after.high == 1.0 then n else if after.high == Compound(before.low, r) then i else j;
      assert GrowthIs(xs, low, n, after.low) && GrowthIs(xs, high, n, after.high);
    }
  }

  lemma {:induction false} ExtremesBound(xs: seq<real>, n: nat)
    requires n <= |xs|
    ensures forall i: nat :: i <= n ==> ExtremesAfter(xs, n).low <= Growth(xs, i, n) <= ExtremesAfter(xs, n).high
    ensures forall i: nat, j: nat :: i <= j <= n ==> ExtremesAfter(xs, n).worst <= Growth(xs, i, j)
  {
    hide Compound;
    if 0 < n {
      ExtremesBound(xs, n - 1);
      var before, after, r := ExtremesAfter(xs, n - 1), ExtremesAfter(xs, n), xs[n - 1];
      forall i: nat | i <= n ensures after.low <= Growth(xs, i, n) <= after.high {
        if i < n { CompoundBetween(before.low, Growth(xs, i, n - 1), before.high, r); }
      }
    }
  }

  /** The scan finds the worst loss between any two points of every series; and the reported drawdown
      is that loss exactly if the scan meets no growth below it, for which it must be negative. */
  lemma DrawdownIsWorstLossIff(xs: seq<real>)
    ensures exists i: nat, j: nat :: i <= j <= |xs| && LossPct(xs, i, j) == WorstLossPct(xs)
    ensures forall i: nat, j: nat | i <= j <= |xs| :: LossPct(xs, i, j) <= WorstLossPct(xs)
    ensures (forall i: nat, j: nat | i <= j <= |xs| :: LossPct(xs, i, j) <= MaxDrawdown(xs))
       <==> WorstLossPct(xs) == MaxDrawdown(xs)
    ensures WorstLossPct(xs) != MaxDrawdown(xs) ==> MaxDrawdown(xs) < WorstLossPct(xs) && 100.0 < WorstLossPct(xs)
  {
    hide Growth, CurveAfter, ExtremesAfter;
    DrawdownIsWorstLoss(xs);
    ExtremesAreMet(xs, |xs|);
    ExtremesBound(xs, |xs|);
    var i: nat, j: nat :| j <= |xs| && GrowthIs(xs, i, j, ExtremesAfter(xs, |xs|).worst);
    assert LossPct(xs, i, j) == WorstLossPct(xs);
  }

  lemma PeakExists(xs: seq<real>, j: nat) returns (p: nat)
    requires j <= |xs|
    ensures IsPeak(xs, p, j) && Growth(xs, 0, p) > 0.0
  {
    hide CurveAfter, Growth;
    CurveTracksPeak(xs, j);
    p :| p <= j && Growth(xs, 0, p) == CurveAfter(xs, j).peak;
  }

  lemma {:induction false} GrowthMonotone(ys: seq<real>, xs: seq<real>, i: nat, j: nat)
    requires PointwiseAtMost(ys, xs) && NoWipeout(ys) && i <= j <= |xs|
    ensures 0.0 <= Growth(ys, i, j) <= Growth(xs, i, j)
    decreases j
  {
    if i < j {
      GrowthMonotone(ys, xs, i, j - 1);
      assert ys[j - 1] <= xs[j - 1];
      ProductMonotone(Growth(ys, i, j - 1), Growth(xs, i, j - 1), 1.0 + ys[j - 1] / 100.0, 1.0 + xs[j - 1] / 100.0,
        Growth(ys, i, j), Growth(xs, i, j));
    }
  }

  /** Lower returns never reduce the maximum drawdown, as long as no trade loses everything. */
  lemma DrawdownMonotone(ys: seq<real>, xs: seq<real>)
    requires PointwiseAtMost(ys, xs) && NoWipeout(ys)
    ensures MaxDrawdown(xs) <= MaxDrawdown(ys)
  {
    hide Growth, MaxDrawdown;
    assert NoWipeout(xs) by {
      forall k | 0 <= k < |xs| ensures -100.0 <= xs[k] { assert ys[k] <= xs[k]; }
    }
    DrawdownIsWorstLoss(xs);
    DrawdownIsWorstLoss(ys);
    var i: nat, j: nat :| i <= j <= |xs| && LossPct(xs, i, j) == MaxDrawdown(xs);
    GrowthMonotone(ys, xs, i, j);
    assert LossPct(ys, i, j) <= MaxDrawdown(ys);
  }

  /** No trade wipes the account out, except perhaps the last one, and that from a peak. */
  ghost predicate PaddingSafe(ys: seq<real>) {
    || NoWipeout(ys)
    || (ys != [] && NoWipeout(ys[..|ys| - 1]) && IsPeak(ys, |ys| - 1, |ys| - 1))
  }

  /** Whatever the returns were before they were lowered to these, the drawdown was no larger: this
      holds of exactly the series that PaddingSafe describes. */
  lemma DrawdownMonotoneExactly(ys: seq<real>)
    ensures (forall xs | PointwiseAtMost(ys, xs) :: MaxDrawdown(xs) <= MaxDrawdown(ys)) <==> PaddingSafe(ys)
  {
    hide MaxDrawdown, PaddingSafe;
    if PaddingSafe(ys) {
      forall xs | PointwiseAtMost(ys, xs) ensures MaxDrawdown(xs) <= MaxDrawdown(ys) {
        SafeIsMonotone(ys, xs);
      }
    } else {
      var xs := UnsafeIsNotMonotone(ys);
    }
  }

  lemma OneTradeLoss(xs: seq<real>, k: nat)
    requires k < |xs|
    ensures LossPct(xs, k, k + 1) == -xs[k]
  {
    assert Growth(xs, k, k + 1) == Compound(1.0, xs[k]);
  }

  /** A trade from a peak that takes the equity below zero costs its own return. */
  lemma WipeoutFromPeak(xs: seq<real>, k: nat)
    requires k < |xs| && IsPeak(xs, k, k) && xs[k] < -100.0
    ensures -xs[k] <= MaxDrawdown(xs)
  {
    hide CurveAfter, BelowPeakPct;
    CurveTracksPeak(xs, k);
    assert 0.0 < Growth(xs, 0, k);
    assert IsPeak(xs, k, k + 1);
    hide Growth, LossPct, LossFromPeak;
    DrawdownIsWorstPeakLoss(xs, |xs|);
    LossFromPeakIsLossPct(xs, k, k + 1);
    OneTradeLoss(xs, k);
  }

  /** A drawdown that ends before the last trade is at most everything; one that the last, ruinous
      trade ends costs at most that trade, and less if it did not start at the peak. */
  lemma LossesBeforeRuin(xs: seq<real>, p: nat, j: nat)
    requires xs != [] && NoWipeout(xs[..|xs| - 1]) && p <= j <= |xs|
    requires IsPeak(xs, p, j) && Growth(xs, 0, p) > 0.0
    ensures j < |xs| || p == |xs| ==> LossPct(xs, p, j) <= 100.0
    ensures xs[|xs| - 1] < -100.0 && p < j == |xs| ==> LossPct(xs, p, j) <= -xs[|xs| - 1]
    ensures xs[|xs| - 1] < -100.0 && p < j == |xs| && Growth(xs, 0, |xs| - 1) < Growth(xs, 0, p)
            ==> LossPct(xs, p, j) < -xs[|xs| - 1]
  {
    var n := |xs|;
    assert forall k :: 0 <= k < n - 1 ==> xs[k] == xs[..n - 1][k];
    if p == j {
      assert Growth(xs, p, j) == 1.0;
    } else if j < n {
      GrowthNonNegative(xs, p, j);
    } else if xs[n - 1] < -100.0 {
      var kept := Growth(xs, p, n - 1);
      GrowthNonNegative(xs, p, n - 1);
      GrowthSplits(xs, 0, p, n - 1);
      PartOfPeak(Growth(xs, 0, p), kept, Growth(xs, 0, n - 1));
      assert Growth(xs, p, n) == Compound(kept, xs[n - 1]);
      hide Growth;
      RuinOfPart(kept, xs[n - 1]);
    }
  }

  lemma PartOfPeak(peak: real, kept: real, equity: real)
    requires 0.0 < peak && equity == peak * kept && equity <= peak
    ensures kept <= 1.0 && (equity < peak ==> kept < 1.0)
  {
    if 1.0 < kept { ProductPositive(peak, kept - 1.0, equity - peak); }
  }

  lemma RuinOfPart(kept: real, r: real)
    requires 0.0 <= kept <= 1.0 && r < -100.0
    ensures (1.0 - Compound(kept, r)) * 100.0 <= -r
    ensures kept < 1.0 ==> (1.0 - Compound(kept, r)) * 100.0 < -r
  {
    var beyond := -(1.0 + r / 100.0);
    assert (1.0 - Compound(kept, r)) * 100.0 == -r - (1.0 - kept) * beyond * 100.0;
    if kept < 1.0 { ProductPositive(1.0 - kept, beyond, (1.0 - kept) * beyond); }
  }

  lemma SafeIsMonotone(ys: seq<real>, xs: seq<real>)
    requires PointwiseAtMost(ys, xs) && PaddingSafe(ys)
    ensures MaxDrawdown(xs) <= MaxDrawdown(ys)
  {
    hide CurveAfter, Growth, LossPct, LossFromPeak;
    if NoWipeout(ys) {
      DrawdownMonotone(ys, xs);
    } else {
      var n := |ys|;
      assert forall k :: 0 <= k < n - 1 ==> ys[k] == ys[..n - 1][k];
      assert ys[n - 1] < -100.0;
      WipeoutFromPeak(ys, n - 1);
      var before := xs[..n - 1];
      forall k | 0 <= k < |before| ensures -100.0 <= before[k] { assert ys[k] <= xs[k]; }
      DrawdownIsWorstPeakLoss(xs, n);
      var p: nat, j: nat :| Witness(xs, n, p, j);
      LossFromPeakIsLossPct(xs, p, j);
      LossesBeforeRuin(xs, p, j);
      if -100.0 <= xs[n - 1] {
        assert NoWipeout(xs) by {
          forall k | 0 <= k < |xs| ensures -100.0 <= xs[k] { assert k < n - 1 ==> xs[k] == xs[..n - 1][k]; }
        }
        GrowthNonNegative(xs, p, j);
        LossOfPart(xs, p, j);
      }
    }
  }

  lemma {:induction false} LossOfPart(xs: seq<real>, i: nat, j: nat)
    requires i <= j <= |xs| && 0.0 <= Growth(xs, i, j)
    ensures LossPct(xs, i, j) <= 100.0
  {
  }

  /** The least returns above ys that never fall before trade k. */
  function Raised(ys: seq<real>, k: nat): (xs: seq<real>)
    requires k <= |ys|
    ensures |xs| == |ys| && PointwiseAtMost(ys, xs)
    ensures forall i :: 0 <= i < k ==> 0.0 <= xs[i]
    ensures forall i :: k <= i < |ys| ==> xs[i] == ys[i]
  {
    seq(|ys|, i requires 0 <= i < |ys| => if i < k && ys[i] < 0.0 then 0.0 else ys[i])
  }

  lemma {:induction false} RisesToPeak(xs: seq<real>, k: nat)
    requires k <= |xs| && forall i :: 0 <= i < k ==> 0.0 <= xs[i]
    ensures IsPeak(xs, k, k) && 1.0 <= Growth(xs, 0, k)
  {
    if 0 < k {
      RisesToPeak(xs, k - 1);
      ScaledNonNegative(Growth(xs, 0, k - 1), xs[k - 1] / 100.0, Growth(xs, 0, k) - Growth(xs, 0, k - 1));
    }
  }

  lemma UnsafeIsNotMonotone(ys: seq<real>) returns (xs: seq<real>)
    requires !PaddingSafe(ys)
    ensures PointwiseAtMost(ys, xs) && MaxDrawdown(ys) < MaxDrawdown(xs)
  {
    hide CurveAfter, Growth, LossPct, LossFromPeak, MaxDrawdown;
    var k: nat :| k < |ys| && ys[k] < -100.0;
    if k + 1 < |ys| {
      xs := Amplified(ys, k);
    } else {
      var n := |ys|;
      if j: nat :| j < n - 1 && ys[j] < -100.0 {
        xs := Amplified(ys, j);
      } else {
        assert NoWipeout(ys[..n - 1]);
        xs := Raised(ys, n - 1);
        RisesToPeak(xs, n - 1);
        WipeoutFromPeak(xs, n - 1);
        RuinNotFromPeak(ys);
      }
    }
  }

  lemma RuinNotFromPeak(ys: seq<real>)
    requires ys != [] && NoWipeout(ys[..|ys| - 1]) && ys[|ys| - 1] < -100.0
    requires !IsPeak(ys, |ys| - 1, |ys| - 1)
    ensures MaxDrawdown(ys) < -ys[|ys| - 1]
  {
    hide CurveAfter, Growth, LossPct, LossFromPeak;
    var n := |ys|;
    DrawdownIsWorstPeakLoss(ys, n);
    var p: nat, j: nat :| Witness(ys, n, p, j);
    LossFromPeakIsLossPct(ys, p, j);
    LossesBeforeRuin(ys, p, j);
  }

  /** After a wipe-out with a trade to follow, a large enough gain on that trade deepens the loss
      beyond any bound: the account is short of money, and the source compounds it. */
  lemma Amplified(ys: seq<real>, k: nat) returns (xs: seq<real>)
    requires k + 1 < |ys| && ys[k] < -100.0
    ensures PointwiseAtMost(ys, xs) && MaxDrawdown(ys) < MaxDrawdown(xs)
  {
    hide CurveAfter, LossFromPeak, MaxDrawdown, Growth, LossPct, Compound;
    var beyond := -(1.0 + ys[k] / 100.0);
    var bound := MaxDrawdown(ys);
    var gain := if bound / beyond > ys[k + 1] then bound / beyond else ys[k + 1];
    if gain < 0.0 { gain := 0.0; }
    xs := Raised(ys, k)[k + 1 := gain];
    RisesToPeak(xs, k);
    LossOfRuinAndGain(xs, k);
    DrawdownIsWorstPeakLoss(xs, |xs|);
    LossFromPeakIsLossPct(xs, k, k + 2);
    MaxDrawdownIsLast(xs);
  }

  /** A wipe-out from a peak followed by a gain on the debt. */
  lemma LossOfRuinAndGain(xs: seq<real>, k: nat)
    requires k + 1 < |xs| && IsPeak(xs, k, k) && 1.0 <= Growth(xs, 0, k)
    requires xs[k] < -100.0 && 0.0 <= xs[k + 1]
    ensures IsPeak(xs, k, k + 2)
    ensures LossPct(xs, k, k + 2) == 100.0 - (1.0 + xs[k] / 100.0) * (100.0 + xs[k + 1])
  {
    assert Growth(xs, 0, k + 1) == Compound(Growth(xs, 0, k), xs[k]);
    StaysNegative(Growth(xs, 0, k + 1), xs[k + 1]);
    assert Growth(xs, 0, k + 2) == Compound(Growth(xs, 0, k + 1), xs[k + 1]);
    assert Growth(xs, k, k + 1) == Compound(Growth(xs, k, k), xs[k]);
    assert Growth(xs, k, k + 2) == Compound(Growth(xs, k, k + 1), xs[k + 1]);
  }

  lemma {:induction false} MaxDrawdownIsLast(xs: seq<real>)
    ensures MaxDrawdown(xs) == CurveAfter(xs, |xs|).maxDd
  {
  }

  lemma StaysNegative(equity: real, gain: real)
    requires equity < 0.0 <= gain
    ensures Compound(equity, gain) < 0.0
  {
    ProductPositive(-equity, 1.0 + gain / 100.0, -Compound(equity, gain));
  }

  /** Two concrete series: lower returns with a smaller drawdown, and a drawdown that is not the
      worst pairwise loss. */
  lemma WipeoutBreaksDrawdown()
    ensures PointwiseAtMost([-150.0, -50.0], [-150.0, 100.0])
    ensures MaxDrawdown([-150.0, -50.0]) == 150.0 && MaxDrawdown([-150.0, 100.0]) == 200.0
    ensures MaxDrawdown([100.0, -300.0]) == 300.0 && LossPct([100.0, -300.0], 0, 2) == 500.0
  {
    TwoTrades(-150.0, -50.0);
    TwoTrades(-150.0, 100.0);
    TwoTrades(100.0, -300.0);
  }

  lemma TwoTrades(r: real, s: real)
    ensures CurveAfter([r, s], 2) == CurveStep(CurveStep(Curve(1.0, 1.0, 0.0), r), s)
    ensures Growth([r, s], 0, 2) == Compound(Compound(1.0, r), s)
  {
    var xs := [r, s];
    assert CurveAfter(xs, 1) == CurveStep(CurveAfter(xs, 0), r);
    assert Growth(xs, 0, 1) == Compound(Growth(xs, 0, 0), r);
  }
}
