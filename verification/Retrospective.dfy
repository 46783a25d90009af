/**
 The retrospective that gates capital (scripts/retrospective_dsr.py, 329-499): two operating
 points, two sensitivity sweeps, and the verdict; and its per-regime use
 (scripts/regime_dsr.py, 532-554).
 */
module Retrospective {
  import opened RealArithmetic
  import opened Sorting
  import opened Moments
  import opened DeflatedSharpe
  import opened ReturnMetrics
  import opened CostModel
  import opened Classifier
  import opened EffectiveK
  import opened SharpeOrder

  datatype KCell = KCell(k: int, dsrPValue: real, tier: Tier)
  datatype VarianceCell = VarianceCell(varianceSr: real, dsrPValue: real, tier: Tier)

  datatype AnalysisResult = AnalysisResult(
    nTradesAnalyzed: nat,
    nTradesQuarantined: nat,
    pfRaw: ProfitFactor,
    pfAdjusted: ProfitFactor,
    sharpeRaw: real,
    sharpeAdjusted: real,
    maxDdBase: real,
    maxDdAdjusted: real,
    baseP: real,
    conservativeP: real,
    baseTier: Tier,
    conservativeTier: Tier,
    finalTier: Tier,
    fragility: bool,
    kCells: seq<KCell>,
    varianceCells: seq<VarianceCell>,
    verdictIsFragile: bool)

  /** Chronological order: exit time, then entry time, compared as ISO-8601 strings. */
  predicate TradeLe(a: Trade, b: Trade) {
    StringLe(a.exitTime, b.exitTime) && (a.exitTime == b.exitTime ==> StringLe(a.entryTime, b.entryTime))
  }

  function Genuine(raw: seq<Trade>): (kept: seq<Trade>)
    ensures |kept| <= |raw|
  {
    if raw == [] then []
    else Genuine(raw[..|raw| - 1]) + (if IsCorruptForceClose(raw[|raw| - 1]) then [] else [raw[|raw| - 1]])
  }

  function PooledTrades(raw: seq<Trade>): seq<Trade> {
    Sort(Genuine(raw), TradeLe)
  }

  function BaseReturns(trades: seq<Trade>, c: CostParameters): seq<real> {
    seq(|trades|, i requires 0 <= i < |trades| => ApplyCostModel(trades[i], c).baseReturnPct)
  }

  function ConservativeReturns(trades: seq<Trade>, c: CostParameters): seq<real> {
    seq(|trades|, i requires 0 <= i < |trades| => ApplyCostModel(trades[i], c).conservativeReturnPct)
  }

  /** One operating point: the tier of a return series at a given K and Sharpe variance. */
  function TierAt(series: seq<real>, k: int, varianceSr: real, num: Numerics): Tier
    requires num.Ideal()
  {
    ClassifyTier(DsrPValue(series, k, varianceSr, num), MaxDrawdown(series), ProfitFactorFromReturns(series),
      SampleSharpe(series, num), |series|)
  }

  function KCells(series: seq<real>, sweep: seq<int>, varianceSr: real, num: Numerics): seq<KCell>
    requires num.Ideal()
  {
    seq(|sweep|, i requires 0 <= i < |sweep| =>
      KCell(sweep[i], DsrPValue(series, sweep[i], varianceSr, num), TierAt(series, sweep[i], varianceSr, num)))
  }

  function VarianceCells(series: seq<real>, k: int, sweep: seq<real>, num: Numerics): seq<VarianceCell>
    requires num.Ideal()
  {
    seq(|sweep|, i requires 0 <= i < |sweep| =>
      VarianceCell(sweep[i], DsrPValue(series, k, sweep[i], num), TierAt(series, k, sweep[i], num)))
  }

  function TiersOf(cells: seq<KCell>): set<Tier> {
    set c | c in cells :: c.tier
  }

  function GatingVariance(varianceSrPoint: real): real {
    MaxReal(VarianceSrSweep(varianceSrPoint))
  }

  /** The analysis as a function of the pooled trades. */
  function Analyze(raw: seq<Trade>, k: EffectiveKEstimate, varianceSrPoint: real, c: CostParameters, num: Numerics)
    : AnalysisResult
    requires num.Ideal()
  {
    var trades := PooledTrades(raw);
    var base, conservative := BaseReturns(trades, c), ConservativeReturns(trades, c);
    var baseTier := TierAt(base, k.pointEstimate, varianceSrPoint, num);
    var conservativeTier := TierAt(conservative, k.gatingK, GatingVariance(varianceSrPoint), num);
    var (finalTier, fragility) := ResolveFinalTier(baseTier, conservativeTier);
    var kCells := KCells(conservative, k.sweep, varianceSrPoint, num);
    AnalysisResult(
      |trades|,
      |raw| - |Genuine(raw)|,
      ProfitFactorFromReturns(base),
      ProfitFactorFromReturns(conservative),
      SampleSharpe(base, num),
      SampleSharpe(conservative, num),
      MaxDrawdown(base),
      MaxDrawdown(conservative),
      DsrPValue(base, k.pointEstimate, varianceSrPoint, num),
      DsrPValue(conservative, k.gatingK, GatingVariance(varianceSrPoint), num),
      baseTier,
      conservativeTier,
      finalTier,
      fragility,
      kCells,
      VarianceCells(conservative, k.gatingK, VarianceSrSweep(varianceSrPoint), num),
      fragility || 1 < |TiersOf(kCells)|)
  }

  lemma {:induction false} PooledIsGenuine(raw: seq<Trade>)
    ensures multiset(PooledTrades(raw)) == multiset(Genuine(raw))
    ensures |PooledTrades(raw)| == |Genuine(raw)|
  {
    SortKeepsElements(Genuine(raw), TradeLe);
    SortKeepsLength(Genuine(raw), TradeLe);
  }

  lemma TradeOrder()
    ensures TotalPreorder(TradeLe)
  {
    forall a: Trade, b: Trade ensures TradeLe(a, b) || TradeLe(b, a) {
      StringLeTotal(a.exitTime, b.exitTime);
      StringLeTotal(a.entryTime, b.entryTime);
    }
    forall a: Trade, b: Trade, c: Trade | TradeLe(a, b) && TradeLe(b, c) ensures TradeLe(a, c) {
      StringLeTransitive(a.exitTime, b.exitTime, c.exitTime);
      StringLeTotal(a.exitTime, b.exitTime);
      if a.exitTime == b.exitTime == c.exitTime {
        StringLeTransitive(a.entryTime, b.entryTime, c.entryTime);
      }
    }
  }

  lemma {:induction false} GenuineElements(raw: seq<Trade>)
    ensures forall t :: multiset(Genuine(raw))[t] == if IsCorruptForceClose(t) then 0 else multiset(raw)[t]
  {
    hide IsCorruptForceClose;
    if raw != [] {
      GenuineElements(raw[..|raw| - 1]);
      assert raw == raw[..|raw| - 1] + [raw[|raw| - 1]];
    }
  }

  /** The pool is every trade that is not corrupt, as often as it occurs, in chronological order;
      so the drawdown is taken along time whatever order the sessions were read in. */
  lemma PoolIsChronological(raw: seq<Trade>)
    ensures forall t :: multiset(PooledTrades(raw))[t] == if IsCorruptForceClose(t) then 0 else multiset(raw)[t]
    ensures var p := PooledTrades(raw);
            forall i, j :: 0 <= i < j < |p| ==>
              && StringLe(p[i].exitTime, p[j].exitTime)
              && (p[i].exitTime == p[j].exitTime ==> StringLe(p[i].entryTime, p[j].entryTime))
  {
    TradeOrder();
    SortSorts(Genuine(raw), TradeLe);
    PooledIsGenuine(raw);
    GenuineElements(raw);
    var p := PooledTrades(raw);
    forall i, j | 0 <= i < j < |p| ensures TradeLe(p[i], p[j]) {
    }
  }

  /** `analyze_strategy`: the source's loops, each in the method it is named after. */
  method AnalyzeStrategy(raw: seq<Trade>, k: EffectiveKEstimate, varianceSrPoint: real, c: CostParameters,
                         num: Numerics)
    returns (result: AnalysisResult)
    requires num.Ideal()
    ensures result == Analyze(raw, k, varianceSrPoint, c, num)
  {
    hide ClassifyTier, DsrPValue, MaxDrawdown, ProfitFactorFromReturns, SampleSharpe, VarianceSrSweep, MaxReal,
      ApplyCostModel, Sort, IsCorruptForceClose;
    var trades := Quarantine(raw);
    var quarantined := |raw| - |trades|;
    PooledIsGenuine(raw);
    trades := Sort(trades, TradeLe);
    var base, conservative := PaddedReturns(trades, c);

    var varianceSrHigh := MaxReal(VarianceSrSweep(varianceSrPoint));
    var baseP := DsrPValue(base, k.pointEstimate, varianceSrPoint, num);
    var conservativeP := DsrPValue(conservative, k.gatingK, varianceSrHigh, num);
    var ddBase := MaxDrawdownPctFromReturns(base);
    var dd := MaxDrawdownPctFromReturns(conservative);
    var pf, sharpe := ProfitFactorFromReturns(conservative), SampleSharpe(conservative, num);
    var baseTier := ClassifyTier(baseP, ddBase, ProfitFactorFromReturns(base), SampleSharpe(base, num), |trades|);
    var conservativeTier := ClassifyTier(conservativeP, dd, pf, sharpe, |trades|);
    var (finalTier, fragility) := ResolveFinalTier(baseTier, conservativeTier);

    var kCells := SweepK(conservative, k.sweep, varianceSrPoint, dd, pf, sharpe, num);
    var varianceCells := SweepVariance(conservative, k.gatingK, VarianceSrSweep(varianceSrPoint), dd, pf, sharpe, num);

    result := AnalysisResult(
      |trades|, quarantined, ProfitFactorFromReturns(base), pf, SampleSharpe(base, num), sharpe, ddBase, dd,
      baseP, conservativeP, baseTier, conservativeTier, finalTier, fragility, kCells, varianceCells,
      fragility || 1 < |TiersOf(kCells)|);
  }

  method Quarantine(raw: seq<Trade>) returns (trades: seq<Trade>)
    ensures trades == Genuine(raw)
  {
    hide IsCorruptForceClose;
    trades := [];
    for i := 0 to |raw|
      invariant trades == Genuine(raw[..i])
    {
      assert raw[..i + 1][..i] == raw[..i];
      if !IsCorruptForceClose(raw[i]) {
        trades := trades + [raw[i]];
      }
    }
    assert raw[..|raw|] == raw;
  }

  method SweepK(series: seq<real>, sweep: seq<int>, v: real, dd: real, pf: ProfitFactor, sharpe: real, num: Numerics)
    returns (cells: seq<KCell>)
    requires num.Ideal()
    requires dd == MaxDrawdown(series) && pf == ProfitFactorFromReturns(series) && sharpe == SampleSharpe(series, num)
    ensures cells == KCells(series, sweep, v, num)
  {
    hide ClassifyTier, DsrPValue, MaxDrawdown, ProfitFactorFromReturns, SampleSharpe;
    cells := [];
    for i := 0 to |sweep|
      invariant cells == KCells(series, sweep[..i], v, num)
    {
      var p := DsrPValue(series, sweep[i], v, num);
      cells := cells + [KCell(sweep[i], p, ClassifyTier(p, dd, pf, sharpe, |series|))];
    }
    assert sweep[..|sweep|] == sweep;
  }

  method SweepVariance(series: seq<real>, k: int, sweep: seq<real>, dd: real, pf: ProfitFactor, sharpe: real,
                       num: Numerics)
    returns (cells: seq<VarianceCell>)
    requires num.Ideal()
    requires dd == MaxDrawdown(series) && pf == ProfitFactorFromReturns(series) && sharpe == SampleSharpe(series, num)
    ensures cells == VarianceCells(series, k, sweep, num)
  {
    hide ClassifyTier, DsrPValue, MaxDrawdown, ProfitFactorFromReturns, SampleSharpe;
    cells := [];
    for i := 0 to |sweep|
      invariant cells == VarianceCells(series, k, sweep[..i], num)
    {
      var p := DsrPValue(series, k, sweep[i], num);
      cells := cells + [VarianceCell(sweep[i], p, ClassifyTier(p, dd, pf, sharpe, |series|))];
    }
    assert sweep[..|sweep|] == sweep;
  }

  method PaddedReturns(trades: seq<Trade>, c: CostParameters) returns (base: seq<real>, conservative: seq<real>)
    ensures base == BaseReturns(trades, c)
    ensures conservative == ConservativeReturns(trades, c)
  {
    hide ApplyCostModel;
    base, conservative := [], [];
    for i := 0 to |trades|
      invariant base == BaseReturns(trades[..i], c)
      invariant conservative == ConservativeReturns(trades[..i], c)
    {
      var adjusted := ApplyCostModel(trades[i], c);
      base := base + [adjusted.baseReturnPct];
      conservative := conservative + [adjusted.conservativeReturnPct];
    }
    assert trades[..|trades|] == trades;
  }

  // ----- the gate ---------------------------------------------------------------------------

  /** More trials and more variance never earn the same returns a better tier. */
  lemma TierMonotone(series: seq<real>, k1: int, k2: int, v1: real, v2: real, num: Numerics)
    requires num.Ideal() && 1 <= k1 <= k2 && 0.0 <= v1 <= v2
    ensures AtLeastAsSevere(TierAt(series, k2, v2, num), TierAt(series, k1, v1, num))
  {
    hide DsrPValue, MaxDrawdown, ProfitFactorFromReturns, SampleSharpe;
    PValueMonotone(series, k1, k2, v1, v2, num);
    ClassifyMonotone(
      DsrPValue(series, k1, v1, num), MaxDrawdown(series), ProfitFactorFromReturns(series), SampleSharpe(series, num),
      DsrPValue(series, k2, v2, num), MaxDrawdown(series), ProfitFactorFromReturns(series), SampleSharpe(series, num),
      |series|);
  }

  /** The gating operating point dominates every cell of both sensitivity sweeps. */
  lemma GateDominatesSweeps(raw: seq<Trade>, k: EffectiveKEstimate, v: real, c: CostParameters, num: Numerics)
    requires num.Ideal() && k.Valid() && 0.0 <= v
    ensures var a := Analyze(raw, k, v, c, num);
            && (forall cell :: cell in a.kCells ==>
                  cell.dsrPValue <= a.conservativeP && AtLeastAsSevere(a.conservativeTier, cell.tier))
            && (forall cell :: cell in a.varianceCells ==>
                  cell.dsrPValue <= a.conservativeP && AtLeastAsSevere(a.conservativeTier, cell.tier))
  {
    hide TierAt, DsrPValue, MaxDrawdown, ProfitFactorFromReturns, SampleSharpe, VarianceSrSweep, MaxReal, PooledTrades,
      BaseReturns, ConservativeReturns;
    var a := Analyze(raw, k, v, c, num);
    var series := ConservativeReturns(PooledTrades(raw), c);
    var high := GatingVariance(v);
    GatingDominates(k);
    VarianceSweepBounds(v);
    forall cell | cell in a.kCells
      ensures cell.dsrPValue <= a.conservativeP && AtLeastAsSevere(a.conservativeTier, cell.tier)
    {
      var i :| 0 <= i < |k.sweep| && a.kCells[i] == cell;
      assert k.sweep[i] in k.sweep;
      PValueMonotone(series, k.sweep[i], k.gatingK, v, high, num);
      TierMonotone(series, k.sweep[i], k.gatingK, v, high, num);
    }
    var sweep := VarianceSrSweep(v);
    forall cell | cell in a.varianceCells
      ensures cell.dsrPValue <= a.conservativeP && AtLeastAsSevere(a.conservativeTier, cell.tier)
    {
      var i :| 0 <= i < |sweep| && a.varianceCells[i] == cell;
      assert sweep[i] in sweep;
      PValueMonotone(series, k.gatingK, k.gatingK, sweep[i], high, num);
      TierMonotone(series, k.gatingK, k.gatingK, sweep[i], high, num);
    }
  }

  lemma PaddedBelowBase(trades: seq<Trade>, c: CostParameters)
    ensures PointwiseAtMost(ConservativeReturns(trades, c), BaseReturns(trades, c))
  {
    hide ApplyCostModel;
    forall i | 0 <= i < |trades|
      ensures ConservativeReturns(trades, c)[i] <= BaseReturns(trades, c)[i]
    {
      ChargesTheLargerCost(trades[i], c);
    }
  }

  /** Padded costs never improve the profit factor, nor the drawdown of a padded series that is
      never wiped out, except perhaps by its last trade and from a peak. */
  lemma PaddingNeverHelps(raw: seq<Trade>, k: EffectiveKEstimate, v: real, c: CostParameters, num: Numerics)
    requires num.Ideal()
    ensures var a := Analyze(raw, k, v, c, num);
            && a.pfAdjusted.AtMost(a.pfRaw)
            && (PaddingSafe(ConservativeReturns(PooledTrades(raw), c)) ==> a.maxDdBase <= a.maxDdAdjusted)
  {
    hide TierAt, DsrPValue, MaxDrawdown, ProfitFactorFromReturns, SampleSharpe, VarianceSrSweep, MaxReal, PooledTrades,
      BaseReturns, ConservativeReturns, KCells, VarianceCells;
    var trades := PooledTrades(raw);
    PaddedBelowBase(trades, c);
    ProfitFactorMonotone(ConservativeReturns(trades, c), BaseReturns(trades, c));
    hide PaddingSafe;
    if PaddingSafe(ConservativeReturns(trades, c)) {
      SafeIsMonotone(ConservativeReturns(trades, c), BaseReturns(trades, c));
    }
  }

  /** What a deployable verdict certifies: enough trades, and at every K and every variance of
      the sweeps a p-value under the hard floor; and a Sharpe ratio above what the luckiest of
      `gatingK` zero-edge strategies is expected to show. */
  lemma DeployableClearsEveryCell(raw: seq<Trade>, k: EffectiveKEstimate, v: real, c: CostParameters, num: Numerics)
    requires num.Ideal() && k.Valid() && 0.0 <= v
    ensures var a := Analyze(raw, k, v, c, num);
            a.finalTier.Deployable() ==>
              && a.finalTier == a.conservativeTier
              && TIER_B_N_MIN <= a.nTradesAnalyzed && a.maxDdAdjusted < TIER_B_MAX_DD_MAX
              && a.conservativeP < TIER_B_DSR_P_MAX
              && (forall cell :: cell in a.kCells ==> cell.dsrPValue < TIER_B_DSR_P_MAX)
              && (forall cell :: cell in a.varianceCells ==> cell.dsrPValue < TIER_B_DSR_P_MAX)
              && ExpectedMaxSharpe(GatingVariance(v), k.gatingK, num).Success?
              && ExpectedMaxSharpe(GatingVariance(v), k.gatingK, num).value < a.sharpeAdjusted
  {
    var a := Analyze(raw, k, v, c, num);
    var series := ConservativeReturns(PooledTrades(raw), c);
    assert a.conservativeTier == TierAt(series, k.gatingK, GatingVariance(v), num);
    hide DsrPValue, MaxDrawdown, ProfitFactorFromReturns, SampleSharpe, VarianceSrSweep, MaxReal, PooledTrades,
      BaseReturns, ConservativeReturns, ExpectedMaxSharpe, KCells, VarianceCells;
    OnlyConservativeDeploys(a.baseTier, a.conservativeTier);
    GateDominatesSweeps(raw, k, v, c, num);
    GatingDominates(k);
    VarianceSweepBounds(v);
    PValueBelowHalf(series, k.gatingK, GatingVariance(v), num);
  }

  lemma FinalTierResolves(raw: seq<Trade>, k: EffectiveKEstimate, v: real, c: CostParameters, num: Numerics)
    requires num.Ideal()
    ensures var trades := PooledTrades(raw);
            Analyze(raw, k, v, c, num).finalTier
            == ResolveFinalTier(TierAt(BaseReturns(trades, c), k.pointEstimate, v, num),
                                TierAt(ConservativeReturns(trades, c), k.gatingK, GatingVariance(v), num)).0
  {
    hide TierAt, DsrPValue, MaxDrawdown, ProfitFactorFromReturns, SampleSharpe, GatingVariance, PooledTrades,
      BaseReturns, ConservativeReturns, KCells, VarianceCells;
  }

  lemma SameLengths(trades: seq<Trade>, c: CostParameters)
    ensures |BaseReturns(trades, c)| == |ConservativeReturns(trades, c)| == |trades|
  {
  }

  lemma NoVerdictByLength(xs: seq<real>, ys: seq<real>, k1: int, k2: int, v1: real, v2: real, num: Numerics)
    requires num.Ideal() && |xs| == |ys|
    ensures TierAt(xs, k1, v1, num) == InsufficientData <==> TierAt(ys, k2, v2, num) == InsufficientData
  {
    hide DsrPValue, MaxDrawdown, ProfitFactorFromReturns, SampleSharpe;
  }

  /** Counting the regime buckets as trials never softens the verdict on the same trades. */
  lemma RegimeScalingNeverSoftens(raw: seq<Trade>, base: EffectiveKEstimate, nBuckets: int, v: real,
                                  c: CostParameters, num: Numerics)
    requires num.Ideal() && base.Valid() && 0.0 <= v
    ensures AtLeastAsSevere(Analyze(raw, RegimeConditionalK(base, nBuckets), v, c, num).finalTier,
                            Analyze(raw, base, v, c, num).finalTier)
  {
    hide TierAt, VarianceSrSweep, MaxReal, PooledTrades, Analyze, BaseReturns, ConservativeReturns, RegimeConditionalK;
    var scaled := RegimeConditionalK(base, nBuckets);
    var trades := PooledTrades(raw);
    FinalTierResolves(raw, base, v, c, num);
    FinalTierResolves(raw, scaled, v, c, num);
    SameLengths(trades, c);
    NoVerdictByLength(BaseReturns(trades, c), ConservativeReturns(trades, c),
      base.pointEstimate, base.gatingK, v, GatingVariance(v), num);
    RegimeScalingRaisesK(base, nBuckets);
    GatingDominates(base);
    VarianceSweepBounds(v);
    TierMonotone(BaseReturns(trades, c), base.pointEstimate, scaled.pointEstimate, v, v, num);
    TierMonotone(ConservativeReturns(trades, c), base.gatingK, scaled.gatingK, GatingVariance(v), GatingVariance(v),
      num);
    ResolveMonotone(
      TierAt(BaseReturns(trades, c), base.pointEstimate, v, num),
      TierAt(ConservativeReturns(trades, c), base.gatingK, GatingVariance(v), num),
      TierAt(BaseReturns(trades, c), scaled.pointEstimate, v, num),
      TierAt(ConservativeReturns(trades, c), scaled.gatingK, GatingVariance(v), num));
  }

  function Pads(trades: seq<Trade>, c: CostParameters): seq<real> {
    seq(|trades|, i requires 0 <= i < |trades| => IncrementalPadPct(trades[i], c))
  }

  lemma ConservativeIsPadded(trades: seq<Trade>, c: CostParameters)
    ensures |BaseReturns(trades, c)| == |Pads(trades, c)| == |ConservativeReturns(trades, c)| == |trades|
    ensures ConservativeReturns(trades, c) == Padded(BaseReturns(trades, c), Pads(trades, c))
    ensures forall pad :: pad in Pads(trades, c) ==> 0.0 <= pad
  {
    hide ConservativeRoundTripPct, BookedCostPct;
    assert ConservativeReturns(trades, c) == Padded(BaseReturns(trades, c), Pads(trades, c));
  }

  /** Exactly when the padded series scores no higher Sharpe ratio than the recorded one, for every
      pool: score against weight, both read off the two series without a root. */
  lemma PaddedSharpeIff(raw: seq<Trade>, k: EffectiveKEstimate, v: real, c: CostParameters, num: Numerics)
    requires num.Ideal()
    ensures var trades := PooledTrades(raw); var a := Analyze(raw, k, v, c, num);
            var base, padded := BaseReturns(trades, c), Padded(BaseReturns(trades, c), Pads(trades, c));
            a.sharpeAdjusted <= a.sharpeRaw <==> ScoresAtMost(padded, base)
  {
    var trades := PooledTrades(raw);
    SharpesAre(raw, k, v, c, num);
    hide *;
    ConservativeIsPadded(trades, c);
    SharpeAtMostIff(ConservativeReturns(trades, c), BaseReturns(trades, c), num);
  }

  lemma SharpesAre(raw: seq<Trade>, k: EffectiveKEstimate, v: real, c: CostParameters, num: Numerics)
    requires num.Ideal()
    ensures var a := Analyze(raw, k, v, c, num);
            && a.sharpeRaw == SampleSharpe(BaseReturns(PooledTrades(raw), c), num)
            && a.sharpeAdjusted == SampleSharpe(ConservativeReturns(PooledTrades(raw), c), num)
  {
    hide TierAt, DsrPValue, MaxDrawdown, ProfitFactorFromReturns, SampleSharpe, GatingVariance, PooledTrades,
      BaseReturns, ConservativeReturns, KCells, VarianceCells;
  }

  /** Every trade is padded by the same, and neither series is at the cliff guard. */
  predicate EquallyPadded(trades: seq<Trade>, pad: real, c: CostParameters) {
    && Pads(trades, c) == Uniform(|trades|, pad)
    && !Degenerate(BaseReturns(trades, c)) && !Degenerate(ConservativeReturns(trades, c))
  }

  lemma EquallyPaddedMeans(trades: seq<Trade>, pad: real, c: CostParameters)
    ensures EquallyPadded(trades, pad, c) ==>
              && Pads(trades, c) == Uniform(|trades|, pad)
              && !Degenerate(BaseReturns(trades, c)) && !Degenerate(ConservativeReturns(trades, c))
  {
    hide Pads, Degenerate;
  }

  /** Equal pads on every trade never raise it, away from the cliff guard. */
  lemma EqualPadsNeverRaise(raw: seq<Trade>, pad: real, k: EffectiveKEstimate, v: real, c: CostParameters,
                            num: Numerics)
    requires num.Ideal() && 0.0 <= pad
    ensures EquallyPadded(PooledTrades(raw), pad, c) ==>
              Analyze(raw, k, v, c, num).sharpeAdjusted <= Analyze(raw, k, v, c, num).sharpeRaw
  {
    hide *;
    var trades := PooledTrades(raw);
    if EquallyPadded(trades, pad, c) {
      SharpesAre(raw, k, v, c, num);
      EquallyPaddedMeans(trades, pad, c);
      ConservativeIsPadded(trades, c);
      UniformPadIff(BaseReturns(trades, c), pad, num);
    }
  }

  /** With positive means away from the cliff, padding raises the reported Sharpe ratio exactly if the
      narrowing, twice the covariance of pads and returns less the pads' own dispersion, outweighs
      what the pads take off the mean. */
  lemma PadsRaiseReportedIff(raw: seq<Trade>, k: EffectiveKEstimate, v: real, c: CostParameters, num: Numerics)
    requires num.Ideal()
    ensures var base, pads := BaseReturns(PooledTrades(raw), c), Pads(PooledTrades(raw), c);
            var a := Analyze(raw, k, v, c, num);
            StaysPositive(base, pads) ==> (a.sharpeRaw < a.sharpeAdjusted <==> NarrowingOutweighs(base, pads))
  {
    hide *;
    var trades := PooledTrades(raw);
    if StaysPositive(BaseReturns(trades, c), Pads(trades, c)) {
      SharpesAre(raw, k, v, c, num);
      ConservativeIsPadded(trades, c);
      PadsRaiseIff(BaseReturns(trades, c), Pads(trades, c), num);
    }
  }

  /** Exactly when equal pads lower the p-value, deflated for the same trials, away from the cliff. */
  lemma EqualPadsSoftenIff(raw: seq<Trade>, pad: real, k: int, v: real, c: CostParameters, num: Numerics)
    requires num.Ideal() && 1 <= k && 0.0 <= v && 0.0 < pad
    ensures var base, padded := BaseReturns(PooledTrades(raw), c), ConservativeReturns(PooledTrades(raw), c);
            EquallyPadded(PooledTrades(raw), pad, c) ==>
              (DsrPValue(padded, k, v, num) < DsrPValue(base, k, v, num) <==> Softens(padded, base, k, v, num))
  {
    hide *;
    var trades := PooledTrades(raw);
    if EquallyPadded(trades, pad, c) {
      EquallyPaddedMeans(trades, pad, c);
      ConservativeIsPadded(trades, c);
      UniformPadSoftensIff(BaseReturns(trades, c), pad, k, v, num);
      SoftensIs(ConservativeReturns(trades, c), BaseReturns(trades, c), k, v, num);
    }
  }

  lemma SoftensIs(ys: seq<real>, xs: seq<real>, k: int, v: real, num: Numerics)
    requires num.Ideal() && ExpectedMaxSharpe(v, k, num).Success?
    ensures var s, t, b := SampleSharpe(ys, num), SampleSharpe(xs, num), ExpectedMaxSharpe(v, k, num).value;
            Softens(ys, xs, k, v, num) ==
              (&& 0.0 < SeriesVarianceTerm(xs, s, num)
               && (|| SeriesVarianceTerm(xs, t, num) <= 0.0
                   || Bends(b, s, t, SampleSkewness(xs, num), SampleKurtosis(xs))))
  {
    hide SampleSharpe, SampleSkewness, SampleKurtosis, SeriesVarianceTerm, ExpectedMaxSharpe, Bends;
  }

  /** Of two series of one shape, the lower Sharpe ratio of ys makes the better evidence. */
  predicate Softens(ys: seq<real>, xs: seq<real>, k: int, v: real, num: Numerics)
    requires num.Ideal()
  {
    && ExpectedMaxSharpe(v, k, num).Success?
    && 0.0 < SeriesVarianceTerm(xs, SampleSharpe(ys, num), num)
    && (|| SeriesVarianceTerm(xs, SampleSharpe(xs, num), num) <= 0.0
        || Bends(ExpectedMaxSharpe(v, k, num).value, SampleSharpe(ys, num), SampleSharpe(xs, num),
                 SampleSkewness(xs, num), SampleKurtosis(xs)))
  }

  /** When the conservative tier is at least as severe as the base tier: if the padded series is safe,
      scores no higher, and does not soften the p-value at the base operating point. */
  lemma ConservativeIsNoSofter(raw: seq<Trade>, k: EffectiveKEstimate, v: real, c: CostParameters, num: Numerics)
    requires num.Ideal() && k.Valid() && 0.0 <= v
    ensures var base, padded := BaseReturns(PooledTrades(raw), c), ConservativeReturns(PooledTrades(raw), c);
            && PaddingSafe(padded) && ScoresAtMost(padded, base)
            && DsrPValue(base, k.pointEstimate, v, num) <= DsrPValue(padded, k.pointEstimate, v, num)
            ==> AtLeastAsSevere(Analyze(raw, k, v, c, num).conservativeTier, Analyze(raw, k, v, c, num).baseTier)
  {
    hide *;
    var trades := PooledTrades(raw);
    TiersAre(raw, k, v, c, num);
    PaddedBelowBase(trades, c);
    TierNoSofter(ConservativeReturns(trades, c), BaseReturns(trades, c), k, v, num);
  }

  lemma TierNoSofter(ys: seq<real>, xs: seq<real>, k: EffectiveKEstimate, v: real, num: Numerics)
    requires num.Ideal() && k.Valid() && 0.0 <= v && PointwiseAtMost(ys, xs)
    ensures && PaddingSafe(ys) && ScoresAtMost(ys, xs)
            && DsrPValue(xs, k.pointEstimate, v, num) <= DsrPValue(ys, k.pointEstimate, v, num)
        ==> AtLeastAsSevere(TierAt(ys, k.gatingK, GatingVariance(v), num), TierAt(xs, k.pointEstimate, v, num))
  {
    hide DsrPValue, MaxDrawdown, ProfitFactorFromReturns, SampleSharpe, GatingVariance, PaddingSafe, ScoresAtMost,
      ClassifyTier;
    GatingDominates(k);
    GatingVarianceDominates(v);
    SharpeAtMostIff(ys, xs, num);
    ProfitFactorMonotone(ys, xs);
    PValueMonotone(ys, k.pointEstimate, k.gatingK, v, GatingVariance(v), num);
    if && PaddingSafe(ys) && ScoresAtMost(ys, xs)
       && DsrPValue(xs, k.pointEstimate, v, num) <= DsrPValue(ys, k.pointEstimate, v, num)
    {
      SafeIsMonotone(ys, xs);
      ClassifyMonotone(
        DsrPValue(xs, k.pointEstimate, v, num), MaxDrawdown(xs), ProfitFactorFromReturns(xs), SampleSharpe(xs, num),
        DsrPValue(ys, k.gatingK, GatingVariance(v), num), MaxDrawdown(ys), ProfitFactorFromReturns(ys),
        SampleSharpe(ys, num), |xs|);
    }
  }

  lemma GatingVarianceDominates(v: real)
    requires 0.0 <= v
    ensures v <= GatingVariance(v)
  {
    hide VarianceSrSweep, MaxReal;
    VarianceSweepBounds(v);
  }

  lemma TiersAre(raw: seq<Trade>, k: EffectiveKEstimate, v: real, c: CostParameters, num: Numerics)
    requires num.Ideal()
    ensures var a := Analyze(raw, k, v, c, num);
            && a.baseTier == TierAt(BaseReturns(PooledTrades(raw), c), k.pointEstimate, v, num)
            && a.conservativeTier == TierAt(ConservativeReturns(PooledTrades(raw), c), k.gatingK, GatingVariance(v),
                 num)
  {
    hide TierAt, DsrPValue, MaxDrawdown, ProfitFactorFromReturns, SampleSharpe, GatingVariance, PooledTrades,
      BaseReturns, ConservativeReturns, KCells, VarianceCells;
  }

  /** So equal pads that leave the series safe and off the cliff never soften the tier, unless they
      soften the p-value. */
  lemma EqualPadsNeverSoften(raw: seq<Trade>, pad: real, k: EffectiveKEstimate, v: real, c: CostParameters,
                             num: Numerics)
    requires num.Ideal() && k.Valid() && 0.0 <= v && 0.0 < pad
    ensures var base, padded := BaseReturns(PooledTrades(raw), c), ConservativeReturns(PooledTrades(raw), c);
            && EquallyPadded(PooledTrades(raw), pad, c) && PaddingSafe(padded)
            && !Softens(padded, base, k.pointEstimate, v, num)
            ==> AtLeastAsSevere(Analyze(raw, k, v, c, num).conservativeTier, Analyze(raw, k, v, c, num).baseTier)
  {
    hide *;
    var trades := PooledTrades(raw);
    if EquallyPadded(trades, pad, c) {
      GatingDominates(k);
      EqualPadsSoftenIff(raw, pad, k.pointEstimate, v, c, num);
      EqualPadsScoreLower(trades, pad, c, num);
      ConservativeIsNoSofter(raw, k, v, c, num);
    }
  }

  lemma EqualPadsScoreLower(trades: seq<Trade>, pad: real, c: CostParameters, num: Numerics)
    requires num.Ideal() && 0.0 <= pad
    ensures EquallyPadded(trades, pad, c) ==> ScoresAtMost(ConservativeReturns(trades, c), BaseReturns(trades, c))
  {
    hide *;
    if EquallyPadded(trades, pad, c) {
      EquallyPaddedMeans(trades, pad, c);
      ConservativeIsPadded(trades, c);
      UniformPadIff(BaseReturns(trades, c), pad, num);
      SharpeAtMostIff(ConservativeReturns(trades, c), BaseReturns(trades, c), num);
    }
  }

  /** The Sharpe ratio is the one gated statistic padding can improve: charging only the better
      of two trades narrows the spread more than it lowers the mean. */
  lemma PaddingCanRaiseSharpe(num: Numerics)
    requires num.Ideal()
    ensures var c := V0Unverified(map[]);
            var first := Trade("X", "a", "b", 100.0, 100.0, 1.0, 0.5, 0.5, 0.0, 1.0);
            var second := Trade("X", "c", "d", 100.0, 100.0, 1.0, 0.0, 0.0, 0.0, 3.0);
            && BaseReturns([first, second], c) == [1.0, 3.0]
            && ConservativeReturns([first, second], c) == [1.0, 2.2]
            && SampleSharpe([1.0, 3.0], num) < SampleSharpe([1.0, 2.2], num)
  {
    PadOfSecondTrade();
    SharpeOfTwo(num);
  }

  lemma PadOfSecondTrade()
    ensures var c := V0Unverified(map[]);
            && IncrementalPadPct(Trade("X", "a", "b", 100.0, 100.0, 1.0, 0.5, 0.5, 0.0, 1.0), c) == 0.0
            && IncrementalPadPct(Trade("X", "c", "d", 100.0, 100.0, 1.0, 0.0, 0.0, 0.0, 3.0), c) == 0.8
  {
  }

  lemma SharpeOfTwo(num: Numerics)
    requires num.Ideal()
    ensures SampleSharpe([1.0, 3.0], num) < SampleSharpe([1.0, 2.2], num)
  {
    var root := num.sqrt(2.0);
    assert root * root == 2.0;
    SqrtPositive(num, 2.0);
    assert (0.6 * root) * (0.6 * root) == 0.72;
    RootOf(num, 0.72, 0.6 * root);
    TwoReturns(1.0, 3.0);
    TwoReturns(1.0, 2.2);
    hide Mean, PowerSum;
    if root < 1.0 { ProductMonotone(root, 1.0, root, 1.0, root * root, 1.0); }
    assert SampleSharpe([1.0, 3.0], num) == 2.0 / root;
    assert SampleSharpe([1.0, 2.2], num) == 1.6 / (0.6 * root);
    TwoOverRoot(root);
  }

  lemma TwoOverRoot(root: real)
    requires 0.0 < root
    ensures 2.0 / root < 1.6 / (0.6 * root)
  {
    var low, high := 2.0 / root, 1.6 / (0.6 * root);
    DivTimes(2.0, root);
    DivTimes(1.6, 0.6 * root);
    if high <= low {
      ScaledNonNegative(low - high, root, low * root - high * root);
    }
  }
}
