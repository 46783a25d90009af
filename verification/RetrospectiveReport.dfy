/**
 What the report of the retrospective says, cell by cell (scripts/retrospective_dsr.py, 361-499): which
 arguments every operating point and every sensitivity cell was computed at, and what makes a verdict
 fragile.
 */
module RetrospectiveReport {
  import opened Moments
  import opened DeflatedSharpe
  import opened ReturnMetrics
  import opened CostModel
  import opened Classifier
  import opened EffectiveK
  import opened Retrospective
  import opened StrictDeflation

  /** The padded returns of the pool, which both sweeps are computed on. */
  function PaddedPool(raw: seq<Trade>, c: CostParameters): seq<real> {
    ConservativeReturns(PooledTrades(raw), c)
  }

  /** The series can be deflated: two returns and a positive variance term. */
  predicate Computable(series: seq<real>, num: Numerics)
    requires num.Ideal()
  {
    2 <= |series| && 0.0 < SeriesVarianceTerm(series, SampleSharpe(series, num), num)
  }

  lemma ComputableRises(series: seq<real>, k1: int, k2: int, v1: real, v2: real, num: Numerics)
    requires num.Ideal() && 1 <= k1 <= k2 && 0.0 <= v1 <= v2 && Computable(series, num)
    ensures DsrPValue(series, k1, v1, num) < DsrPValue(series, k2, v2, num)
       <==> 2 <= k2 && 0.0 < v2 && (k1 < k2 || v1 < v2)
    ensures DsrPValue(series, k1, v1, num) <= DsrPValue(series, k2, v2, num)
  {
    PValueRisesIff(series, k1, k2, v1, v2, num);
    PValueMonotone(series, k1, k2, v1, v2, num);
  }

  lemma Parts(raw: seq<Trade>, k: EffectiveKEstimate, v: real, c: CostParameters, num: Numerics)
    requires num.Ideal()
    ensures var a, padded := Analyze(raw, k, v, c, num), PaddedPool(raw, c);
            && a.kCells == KCells(padded, k.sweep, v, num)
            && a.varianceCells == VarianceCells(padded, k.gatingK, VarianceSrSweep(v), num)
            && a.fragility == (a.baseTier != a.conservativeTier)
            && a.verdictIsFragile == (a.fragility || 1 < |TiersOf(a.kCells)|)
  {
    hide DsrPValue, TierAt, MaxDrawdown, ProfitFactorFromReturns, SampleSharpe, PooledTrades, BaseReturns,
      ConservativeReturns, KCells, VarianceCells, VarianceSrSweep, GatingVariance, TiersOf;
  }

  /** The K sweep: one cell for each swept K, labelled with it and computed at it; with more trials in
      the label the p-value is strictly larger, when there is something to deflate. */
  lemma KSweepIsSwept(raw: seq<Trade>, k: EffectiveKEstimate, v: real, c: CostParameters, num: Numerics)
    requires num.Ideal() && k.Valid() && 0.0 < v
    ensures var cells, padded := Analyze(raw, k, v, c, num).kCells, PaddedPool(raw, c);
            && |cells| == |k.sweep|
            && (forall i :: 0 <= i < |cells| ==>
                  && cells[i].k == k.sweep[i]
                  && cells[i].dsrPValue == DsrPValue(padded, k.sweep[i], v, num)
                  && cells[i].tier == TierAt(padded, k.sweep[i], v, num))
            && (forall i, j :: 0 <= i < |cells| && 0 <= j < |cells| && Computable(padded, num) ==>
                  (cells[i].dsrPValue < cells[j].dsrPValue <==> cells[i].k < cells[j].k))
  {
    hide Analyze, DsrPValue, TierAt, PaddedPool, BuildSweep, MaxInt, Computable;
    var cells, padded := Analyze(raw, k, v, c, num).kCells, PaddedPool(raw, c);
    Parts(raw, k, v, c, num);
    GatingDominates(k);
    forall i, j | 0 <= i < |cells| && 0 <= j < |cells| && Computable(padded, num)
      ensures cells[i].dsrPValue < cells[j].dsrPValue <==> cells[i].k < cells[j].k
    {
      assert k.sweep[i] in k.sweep && k.sweep[j] in k.sweep;
      if k.sweep[i] <= k.sweep[j] {
        ComputableRises(padded, k.sweep[i], k.sweep[j], v, v, num);
      } else {
        ComputableRises(padded, k.sweep[j], k.sweep[i], v, v, num);
      }
    }
  }

  /** The variance sweep likewise, at the gating K. */
  lemma VarianceSweepIsSwept(raw: seq<Trade>, k: EffectiveKEstimate, v: real, c: CostParameters, num: Numerics)
    requires num.Ideal() && k.Valid()
    ensures var cells, padded := Analyze(raw, k, v, c, num).varianceCells, PaddedPool(raw, c);
            var sweep := VarianceSrSweep(v);
            && |cells| == |sweep|
            && (forall i :: 0 <= i < |cells| ==>
                  && cells[i].varianceSr == sweep[i]
                  && cells[i].dsrPValue == DsrPValue(padded, k.gatingK, sweep[i], num)
                  && cells[i].tier == TierAt(padded, k.gatingK, sweep[i], num))
            && (forall i, j :: 0 <= i < |cells| && 0 <= j < |cells| && Computable(padded, num) ==>
                  (cells[i].dsrPValue < cells[j].dsrPValue <==> cells[i].varianceSr < cells[j].varianceSr))
  {
    hide Analyze, DsrPValue, TierAt, PaddedPool, BuildSweep, MaxInt, VarianceSrSweep, Computable;
    var cells, padded := Analyze(raw, k, v, c, num).varianceCells, PaddedPool(raw, c);
    var sweep := VarianceSrSweep(v);
    Parts(raw, k, v, c, num);
    GatingDominates(k);
    VarianceSweepBounds(v);
    forall i, j | 0 <= i < |cells| && 0 <= j < |cells| && Computable(padded, num)
      ensures cells[i].dsrPValue < cells[j].dsrPValue <==> cells[i].varianceSr < cells[j].varianceSr
    {
      assert sweep[i] in sweep && sweep[j] in sweep;
      if sweep[i] <= sweep[j] {
        ComputableRises(padded, k.gatingK, k.gatingK, sweep[i], sweep[j], num);
      } else {
        ComputableRises(padded, k.gatingK, k.gatingK, sweep[j], sweep[i], num);
      }
    }
  }

  /** The two operating points: recorded costs at the point estimates, padded costs at the highest K and
      the highest variance. */
  lemma OperatingPoints(raw: seq<Trade>, k: EffectiveKEstimate, v: real, c: CostParameters, num: Numerics)
    requires num.Ideal()
    ensures var a := Analyze(raw, k, v, c, num); var base := BaseReturns(PooledTrades(raw), c);
            var padded, high := PaddedPool(raw, c), MaxReal(VarianceSrSweep(v));
            && a.baseP == DsrPValue(base, k.pointEstimate, v, num)
            && a.baseTier == TierAt(base, k.pointEstimate, v, num)
            && a.conservativeP == DsrPValue(padded, k.gatingK, high, num)
            && a.conservativeTier == TierAt(padded, k.gatingK, high, num)
            && a.maxDdBase == MaxDrawdown(base) && a.maxDdAdjusted == MaxDrawdown(padded)
            && a.pfRaw == ProfitFactorFromReturns(base) && a.pfAdjusted == ProfitFactorFromReturns(padded)
  {
    hide DsrPValue, TierAt, MaxDrawdown, ProfitFactorFromReturns, SampleSharpe, PooledTrades, BaseReturns,
      ConservativeReturns, KCells, VarianceCells, VarianceSrSweep, MaxReal;
  }

  /** The trade counts: every trade is either analysed or quarantined, and quarantined exactly if it is a
      corrupt force-close. */
  lemma {:induction false} CountsAddUp(raw: seq<Trade>, k: EffectiveKEstimate, v: real, c: CostParameters,
                                       num: Numerics)
    requires num.Ideal()
    ensures var a := Analyze(raw, k, v, c, num);
            && a.nTradesAnalyzed + a.nTradesQuarantined == |raw|
            && a.nTradesQuarantined == |Corrupt(raw)| && |PaddedPool(raw, c)| == a.nTradesAnalyzed
            && multiset(PooledTrades(raw)) + multiset(Corrupt(raw)) == multiset(raw)
  {
    PooledIsGenuine(raw);
    GenuineAndCorrupt(raw);
    hide DsrPValue, TierAt, MaxDrawdown, ProfitFactorFromReturns, SampleSharpe, PooledTrades, KCells, VarianceCells,
      GatingVariance, ApplyCostModel, Genuine, Corrupt;
  }

  function Corrupt(raw: seq<Trade>): seq<Trade> {
    if raw == [] then []
    else Corrupt(raw[..|raw| - 1]) + (if IsCorruptForceClose(raw[|raw| - 1]) then [raw[|raw| - 1]] else [])
  }

  lemma {:induction false} GenuineAndCorrupt(raw: seq<Trade>)
    ensures |Genuine(raw)| + |Corrupt(raw)| == |raw|
    ensures multiset(Genuine(raw)) + multiset(Corrupt(raw)) == multiset(raw)
  {
    hide IsCorruptForceClose;
    if raw == [] {
      assert Genuine(raw) == [] && Corrupt(raw) == [];
    } else {
      var front, last := raw[..|raw| - 1], raw[|raw| - 1];
      GenuineAndCorrupt(front);
      OneMore(Genuine(front), Corrupt(front), front, last);
      assert raw == front + [last];
      assert Genuine(raw) == Genuine(front) + (if IsCorruptForceClose(last) then [] else [last]);
      assert Corrupt(raw) == Corrupt(front) + (if IsCorruptForceClose(last) then [last] else []);
      hide Genuine, Corrupt;
      assert Corrupt(front) + [] == Corrupt(front) && Genuine(front) + [] == Genuine(front);
    }
  }

  lemma OneMore<T>(kept: seq<T>, dropped: seq<T>, all: seq<T>, x: T)
    requires multiset(kept) + multiset(dropped) == multiset(all)
    ensures multiset(kept + [x]) + multiset(dropped) == multiset(all + [x])
    ensures multiset(kept) + multiset(dropped + [x]) == multiset(all + [x])
  {
  }

  /** A verdict is fragile exactly if the two operating points differ in tier or two swept values of K
      give the padded returns different tiers. */
  lemma FragileIff(raw: seq<Trade>, k: EffectiveKEstimate, v: real, c: CostParameters, num: Numerics)
    requires num.Ideal()
    ensures var a, padded := Analyze(raw, k, v, c, num), PaddedPool(raw, c);
            var base, high := BaseReturns(PooledTrades(raw), c), MaxReal(VarianceSrSweep(v));
            && (a.fragility
                <==> TierAt(base, k.pointEstimate, v, num) != TierAt(padded, k.gatingK, high, num))
            && (a.verdictIsFragile
                <==> || TierAt(base, k.pointEstimate, v, num) != TierAt(padded, k.gatingK, high, num)
                     || exists k1, k2 :: k1 in k.sweep && k2 in k.sweep
                          && TierAt(padded, k1, v, num) != TierAt(padded, k2, v, num))
  {
    hide *;
    var padded := PaddedPool(raw, c);
    Parts(raw, k, v, c, num);
    OperatingPoints(raw, k, v, c, num);
    TiersDiffer(padded, k.sweep, v, num);
  }

  lemma TiersDiffer(series: seq<real>, sweep: seq<int>, v: real, num: Numerics)
    requires num.Ideal()
    ensures 1 < |TiersOf(KCells(series, sweep, v, num))|
       <==> exists k1, k2 :: k1 in sweep && k2 in sweep && TierAt(series, k1, v, num) != TierAt(series, k2, v, num)
  {
    hide *;
    var tiers := TiersOf(KCells(series, sweep, v, num));
    TiersSwept(series, sweep, v, num);
    ManyIff(tiers);
    if x, y :| x in tiers && y in tiers && x != y {
      var k1 :| k1 in sweep && TierAt(series, k1, v, num) == x;
      var k2 :| k2 in sweep && TierAt(series, k2, v, num) == y;
      assert TierAt(series, k1, v, num) != TierAt(series, k2, v, num);
    }
    if k1, k2 :| k1 in sweep && k2 in sweep && TierAt(series, k1, v, num) != TierAt(series, k2, v, num) {
      assert TierAt(series, k1, v, num) in tiers && TierAt(series, k2, v, num) in tiers;
    }
  }

  lemma TiersSwept(series: seq<real>, sweep: seq<int>, v: real, num: Numerics)
    requires num.Ideal()
    ensures forall t :: t in TiersOf(KCells(series, sweep, v, num))
                   <==> exists k :: k in sweep && TierAt(series, k, v, num) == t
  {
    hide TierAt, DsrPValue;
    var cells := KCells(series, sweep, v, num);
    forall t ensures t in TiersOf(cells) <==> exists k :: k in sweep && TierAt(series, k, v, num) == t {
      if k :| k in sweep && TierAt(series, k, v, num) == t {
        var i :| 0 <= i < |sweep| && sweep[i] == k;
        assert cells[i] in cells && cells[i].tier == t;
      }
      if t in TiersOf(cells) {
        var i :| 0 <= i < |cells| && cells[i].tier == t;
        assert sweep[i] in sweep;
      }
    }
  }

  lemma ManyIff<T>(s: set<T>)
    ensures 1 < |s| <==> exists x, y :: x in s && y in s && x != y
  {
    if x, y :| x in s && y in s && x != y {
      assert |s - {x} - {y}| == |s| - 2;
    }
    if 1 < |s| {
      var x :| x in s;
      assert |s - {x}| == |s| - 1;
      var y :| y in s - {x};
    }
  }

  /** What each verdict says about a series at an operating point. */
  lemma TierAtExactly(series: seq<real>, k: int, v: real, num: Numerics)
    requires num.Ideal()
    ensures var p, dd, pf := DsrPValue(series, k, v, num), MaxDrawdown(series), ProfitFactorFromReturns(series);
            var sharpe, t := SampleSharpe(series, num), TierAt(series, k, v, num);
            && (t == InsufficientData <==> |series| < 10)
            && (t == TierD <==> 10 <= |series| && (0.50 <= p || 10.0 <= dd))
            && (t == TierA <==> 30 <= |series| && p < 0.20 && dd < 5.0 && pf.AtLeast(1.35) && 1.0 <= sharpe)
            && (t.Deployable() <==> 20 <= |series| && p < 0.30 && dd < 5.0 && pf.AtLeast(1.25) && 0.8 <= sharpe)
  {
    hide DsrPValue, MaxDrawdown, ProfitFactorFromReturns, SampleSharpe;
    DeployableExactly(DsrPValue(series, k, v, num), MaxDrawdown(series), ProfitFactorFromReturns(series),
      SampleSharpe(series, num), |series|);
  }
}
