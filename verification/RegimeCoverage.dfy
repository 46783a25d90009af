/**
 The per-regime screen (scripts/regime_dsr.py, 493-630): the pooled analysis, one analysis for each
 coarse bucket and each fine regime, with the number of coarse buckets counted as trials.
 */
module RegimeCoverage {
  import opened RealArithmetic
  import opened Wrappers
  import opened Moments
  import opened DeflatedSharpe
  import opened CostModel
  import opened Classifier
  import opened EffectiveK
  import opened ReturnMetrics
  import opened Retrospective
  import opened RegimeTagging

  datatype Regime = CoarseRegime(bucket: CoarseBucket) | FineRegime(sub: SubRegime)

  datatype RegimeDsrResult = RegimeDsrResult(
    regime: Regime,
    nTrades: nat,
    pfAdjusted: ProfitFactor,
    sharpeAdjusted: real,
    baseP: real,
    conservativeP: real,
    tier: Tier,
    isDescriptive: bool,
    effectiveK: int)

  datatype RegimeAnalysis = RegimeAnalysis(
    pooled: AnalysisResult,
    cells: seq<RegimeDsrResult>,
    perBucket: map<CoarseBucket, AnalysisResult>)

  function CellOf(regime: Regime, a: AnalysisResult, isDescriptive: bool, effectiveK: int): RegimeDsrResult {
    RegimeDsrResult(regime, a.nTradesAnalyzed, a.pfAdjusted, a.sharpeAdjusted, a.baseP, a.conservativeP, a.finalTier,
      isDescriptive, effectiveK)
  }

  predicate IsDescriptive(a: AnalysisResult, minBucketN: int) {
    a.finalTier == InsufficientData || a.nTradesAnalyzed < minBucketN
  }

  /** The arguments every analysis of the run shares. */
  datatype Setting = Setting(varianceSrPoint: real, costs: CostParameters, num: Numerics)

  function AnalysisOf(trades: seq<Trade>, k: EffectiveKEstimate, s: Setting): AnalysisResult
    requires s.num.Ideal()
  {
    Analyze(trades, k, s.varianceSrPoint, s.costs, s.num)
  }

  /** The estimate every bucket is analysed with. */
  function RegimeK(tagged: seq<TaggedTrade>, baseK: EffectiveKEstimate): EffectiveKEstimate {
    RegimeConditionalK(baseK, MaxOfTwo(1, |Seen(tagged, Coarse)|))
  }

  function CoarseCells(tagged: seq<TaggedTrade>, order: seq<CoarseBucket>, k: EffectiveKEstimate, s: Setting,
                       minBucketN: int)
    : seq<RegimeDsrResult>
    requires s.num.Ideal()
  {
    if order == [] then [] else
    var b := order[|order| - 1];
    var trades := In(tagged, Coarse, Some(b));
    CoarseCells(tagged, order[..|order| - 1], k, s, minBucketN)
    + if trades == [] then [] else
        var a := AnalysisOf(trades, k, s);
        [CellOf(CoarseRegime(b), a, IsDescriptive(a, minBucketN), k.gatingK)]
  }

  /** Diagnostic cells: always descriptive. */
  function FineCells(tagged: seq<TaggedTrade>, order: seq<SubRegime>, k: EffectiveKEstimate, s: Setting)
    : seq<RegimeDsrResult>
    requires s.num.Ideal()
  {
    if order == [] then [] else
    var sub := order[|order| - 1];
    FineCells(tagged, order[..|order| - 1], k, s)
    + [CellOf(FineRegime(sub), AnalysisOf(In(tagged, Fine, Some(sub)), k, s), true, k.gatingK)]
  }

  function PerBucket(tagged: seq<TaggedTrade>, order: seq<CoarseBucket>, k: EffectiveKEstimate, s: Setting)
    : map<CoarseBucket, AnalysisResult>
    requires s.num.Ideal()
  {
    map b | b in order && In(tagged, Coarse, Some(b)) != [] :: AnalysisOf(In(tagged, Coarse, Some(b)), k, s)
  }

  function Coverage(tagged: seq<TaggedTrade>, baseK: EffectiveKEstimate, s: Setting, minBucketN: int): RegimeAnalysis
    requires s.num.Ideal()
  {
    var k := RegimeK(tagged, baseK);
    RegimeAnalysis(
      AnalysisOf(Trades(tagged), baseK, s),
      CoarseCells(tagged, COARSE_BUCKETS, k, s, minBucketN) + FineCells(tagged, Seen(tagged, Fine), k, s),
      PerBucket(tagged, COARSE_BUCKETS, k, s))
  }

  method ComputeRegimeCoverage(tagged: seq<TaggedTrade>, baseK: EffectiveKEstimate, s: Setting, minBucketN: int)
    returns (result: RegimeAnalysis)
    requires s.num.Ideal()
    ensures result == Coverage(tagged, baseK, s, minBucketN)
  {
    hide Analyze, RegimeConditionalK, CoarseCells, FineCells, PerBucket;
    var pooled := AnalyzeStrategy(Trades(tagged), baseK, s.varianceSrPoint, s.costs, s.num);
    var coarse := BucketByCoarse(tagged);
    var k := RegimeConditionalK(baseK, MaxOfTwo(1, |coarse.order|));
    var cells, perBucket := AnalyzeCoarse(tagged, coarse, k, s, minBucketN);
    var fineCells := AnalyzeFine(tagged, k, s);
    result := RegimeAnalysis(pooled, cells + fineCells, perBucket);
  }

  /** One bucket more in the list: one more cell and one more entry, if it holds a trade. */
  lemma {:induction false} NextBucket(tagged: seq<TaggedTrade>, order: seq<CoarseBucket>, b: CoarseBucket,
                                      k: EffectiveKEstimate,
                                     s: Setting, minBucketN: int)
    requires s.num.Ideal()
    ensures var trades := In(tagged, Coarse, Some(b));
            var a := AnalysisOf(trades, k, s);
            && CoarseCells(tagged, order + [b], k, s, minBucketN)
               == CoarseCells(tagged, order, k, s, minBucketN)
                  + (if trades == [] then [] else [CellOf(CoarseRegime(b), a, IsDescriptive(a, minBucketN), k.gatingK)])
            && PerBucket(tagged, order + [b], k, s)
               == if trades == [] then PerBucket(tagged, order, k, s) else PerBucket(tagged, order, k, s)[b := a]
  {
    hide AnalysisOf, In, IsDescriptive;
    assert (order + [b])[..|order|] == order;
    assert forall c :: c in order + [b] <==> c in order || c == b;
  }

  method AnalyzeCoarse(tagged: seq<TaggedTrade>, coarse: Buckets<CoarseBucket>, k: EffectiveKEstimate, s: Setting,
                       minBucketN: int)
    returns (cells: seq<RegimeDsrResult>, perBucket: map<CoarseBucket, AnalysisResult>)
    requires s.num.Ideal() && Groups(coarse, tagged, Coarse)
    ensures cells == CoarseCells(tagged, COARSE_BUCKETS, k, s, minBucketN)
    ensures perBucket == PerBucket(tagged, COARSE_BUCKETS, k, s)
  {
    SeenExactly(tagged, Coarse);
    cells, perBucket := [], map[];
    assert CoarseCells(tagged, [], k, s, minBucketN) == cells && PerBucket(tagged, [], k, s) == perBucket;
    hide Analyze, In, IsDescriptive, Seen, CoarseCells, PerBucket, CellOf;
    for i := 0 to |COARSE_BUCKETS|
      invariant cells == CoarseCells(tagged, COARSE_BUCKETS[..i], k, s, minBucketN)
      invariant perBucket == PerBucket(tagged, COARSE_BUCKETS[..i], k, s)
    {
      var b := COARSE_BUCKETS[i];
      assert COARSE_BUCKETS[..i + 1] == COARSE_BUCKETS[..i] + [b];
      NextBucket(tagged, COARSE_BUCKETS[..i], b, k, s, minBucketN);
      if b in coarse.trades {
        var a := AnalyzeStrategy(coarse.trades[b], k, s.varianceSrPoint, s.costs, s.num);
        perBucket := perBucket[b := a];
        cells := cells + [CellOf(CoarseRegime(b), a, IsDescriptive(a, minBucketN), k.gatingK)];
      }
    }
    assert COARSE_BUCKETS[..|COARSE_BUCKETS|] == COARSE_BUCKETS;
  }

  method AnalyzeFine(tagged: seq<TaggedTrade>, k: EffectiveKEstimate, s: Setting) returns (cells: seq<RegimeDsrResult>)
    requires s.num.Ideal()
    ensures cells == FineCells(tagged, Seen(tagged, Fine), k, s)
  {
    hide Analyze, In, Seen;
    var fine := BucketBySubRegime(tagged);
    cells := [];
    for i := 0 to |fine.order|
      invariant cells == FineCells(tagged, fine.order[..i], k, s)
    {
      ghost var upTo := fine.order[..i + 1];
      assert upTo[..|upTo| - 1] == fine.order[..i] && upTo[|upTo| - 1] == fine.order[i];
      var a := AnalyzeStrategy(fine.trades[fine.order[i]], k, s.varianceSrPoint, s.costs, s.num);
      cells := cells + [CellOf(FineRegime(fine.order[i]), a, true, k.gatingK)];
    }
    assert fine.order[..|fine.order|] == fine.order;
  }

  // ----- trades are counted once -------------------------------------------------------------

  /** The trades analysed in the cells of the wanted regimes. */
  function Analyzed(cells: seq<RegimeDsrResult>, wanted: Regime -> bool): nat {
    if cells == [] then 0 else
    Analyzed(cells[..|cells| - 1], wanted) + if wanted(cells[|cells| - 1].regime) then cells[|cells| - 1].nTrades else 0
  }

  function InBucket(b: CoarseBucket): Regime -> bool {
    r => r == CoarseRegime(b)
  }

  function Refines(b: CoarseBucket): Regime -> bool {
    (r: Regime) => r.FineRegime? && CoarseBucketOf(r.sub) == Some(b)
  }

  /** How many of the bucket's trades survive the quarantine. */
  function Kept<K(==)>(tagged: seq<TaggedTrade>, bucket: TaggedTrade -> Option<K>, k: Option<K>): nat {
    if tagged == [] then 0 else
    var last := tagged[|tagged| - 1];
    Kept(tagged[..|tagged| - 1], bucket, k) + if bucket(last) == k && !IsCorruptForceClose(last.trade) then 1 else 0
  }

  lemma {:induction false} KeptIn<K>(tagged: seq<TaggedTrade>, bucket: TaggedTrade -> Option<K>, k: Option<K>)
    ensures |Genuine(In(tagged, bucket, k))| == Kept(tagged, bucket, k)
  {
    hide IsCorruptForceClose;
    if tagged != [] {
      var rest, last := tagged[..|tagged| - 1], tagged[|tagged| - 1];
      KeptIn(rest, bucket, k);
      if bucket(last) == k {
        var with := In(tagged, bucket, k);
        assert with[..|with| - 1] == In(rest, bucket, k) && with[|with| - 1] == last.trade;
      } else {
        assert In(tagged, bucket, k) == In(rest, bucket, k);
      }
    }
  }

  lemma {:induction false} AnalysisCounts(trades: seq<Trade>, k: EffectiveKEstimate, s: Setting)
    requires s.num.Ideal()
    ensures AnalysisOf(trades, k, s).nTradesAnalyzed == |Genuine(trades)|
  {
    PooledIsGenuine(trades);
  }

  lemma {:induction false} AnalyzedSplits(left: seq<RegimeDsrResult>, right: seq<RegimeDsrResult>,
                                          wanted: Regime -> bool)
    ensures Analyzed(left + right, wanted) == Analyzed(left, wanted) + Analyzed(right, wanted)
  {
    if right == [] {
      assert left + right == left;
    } else {
      var all := left + right;
      assert all[..|all| - 1] == left + right[..|right| - 1];
      AnalyzedSplits(left, right[..|right| - 1], wanted);
    }
  }

  lemma {:induction false} AnalyzedOneMore(cells: seq<RegimeDsrResult>, cell: RegimeDsrResult, wanted: Regime -> bool)
    ensures Analyzed(cells + [cell], wanted)
         == Analyzed(cells, wanted) + if wanted(cell.regime) then cell.nTrades else 0
  {
    assert (cells + [cell])[..|cells|] == cells;
  }

  /** Peel the last bucket off the list of coarse cells. */
  lemma {:induction false} AnalyzedLastBucket(tagged: seq<TaggedTrade>, order: seq<CoarseBucket>, k: EffectiveKEstimate,
                                              s: Setting,
                                             minBucketN: int, wanted: Regime -> bool)
    requires s.num.Ideal() && order != []
    ensures var b := order[|order| - 1];
            Analyzed(CoarseCells(tagged, order, k, s, minBucketN), wanted)
            == Analyzed(CoarseCells(tagged, order[..|order| - 1], k, s, minBucketN), wanted)
               + if wanted(CoarseRegime(b)) then Kept(tagged, Coarse, Some(b)) else 0
  {
    hide IsDescriptive, Kept, Analyzed, AnalysisOf, Genuine;
    var b := order[|order| - 1];
    var before := CoarseCells(tagged, order[..|order| - 1], k, s, minBucketN);
    var trades := In(tagged, Coarse, Some(b));
    hide In;
    KeptIn(tagged, Coarse, Some(b));
    if trades == [] {
      assert CoarseCells(tagged, order, k, s, minBucketN) == before;
    } else {
      var a := AnalysisOf(trades, k, s);
      AnalysisCounts(trades, k, s);
      AnalyzedOneMore(before, CellOf(CoarseRegime(b), a, IsDescriptive(a, minBucketN), k.gatingK), wanted);
    }
  }

  lemma {:induction false} NoCells(tagged: seq<TaggedTrade>, k: EffectiveKEstimate, s: Setting, minBucketN: int,
                                   wanted: Regime -> bool)
    requires s.num.Ideal()
    ensures Analyzed(CoarseCells(tagged, [], k, s, minBucketN), wanted) == 0
  {
  }

  lemma {:induction false} NoCoarseAmongFine(tagged: seq<TaggedTrade>, order: seq<SubRegime>, k: EffectiveKEstimate,
                                             s: Setting, b: CoarseBucket)
    requires s.num.Ideal()
    ensures Analyzed(FineCells(tagged, order, k, s), InBucket(b)) == 0
  {
    hide AnalysisOf, In;
    if order != [] {
      NoCoarseAmongFine(tagged, order[..|order| - 1], k, s, b);
    }
  }

  lemma {:induction false} NoFineAmongCoarse(tagged: seq<TaggedTrade>, order: seq<CoarseBucket>, k: EffectiveKEstimate,
                                             s: Setting, minBucketN: int, b: CoarseBucket)
    requires s.num.Ideal()
    ensures Analyzed(CoarseCells(tagged, order, k, s, minBucketN), Refines(b)) == 0
  {
    hide CoarseCells, Kept;
    if order == [] {
      NoCells(tagged, k, s, minBucketN, Refines(b));
    } else {
      NoFineAmongCoarse(tagged, order[..|order| - 1], k, s, minBucketN, b);
      AnalyzedLastBucket(tagged, order, k, s, minBucketN, Refines(b));
    }
  }

  lemma {:induction false} CoarseCellCounts(tagged: seq<TaggedTrade>, order: seq<CoarseBucket>, k: EffectiveKEstimate,
                                            s: Setting, minBucketN: int, b: CoarseBucket)
    requires s.num.Ideal()
    requires forall i, j :: 0 <= i < j < |order| ==> order[i] != order[j]
    ensures Analyzed(CoarseCells(tagged, order, k, s, minBucketN), InBucket(b))
         == if b in order then Kept(tagged, Coarse, Some(b)) else 0
  {
    hide CoarseCells, Kept;
    if order == [] {
      NoCells(tagged, k, s, minBucketN, InBucket(b));
    } else {
      CoarseCellCounts(tagged, order[..|order| - 1], k, s, minBucketN, b);
      AnalyzedLastBucket(tagged, order, k, s, minBucketN, InBucket(b));
      assert order == order[..|order| - 1] + [order[|order| - 1]];
    }
  }

  /** The trades kept in those regimes of the list that refine b. */
  function KeptRefining(tagged: seq<TaggedTrade>, order: seq<SubRegime>, b: CoarseBucket): nat {
    if order == [] then 0 else
    var sub := order[|order| - 1];
    KeptRefining(tagged, order[..|order| - 1], b)
      + if CoarseBucketOf(sub) == Some(b) then Kept(tagged, Fine, Some(sub)) else 0
  }

  lemma {:induction false} FineCellsCount(tagged: seq<TaggedTrade>, order: seq<SubRegime>, k: EffectiveKEstimate,
                                          s: Setting, b: CoarseBucket)
    requires s.num.Ideal()
    ensures Analyzed(FineCells(tagged, order, k, s), Refines(b)) == KeptRefining(tagged, order, b)
  {
    hide AnalysisOf, In, Kept;
    if order != [] {
      var last := order[|order| - 1];
      FineCellsCount(tagged, order[..|order| - 1], k, s, b);
      KeptIn(tagged, Fine, Some(last));
      AnalysisCounts(In(tagged, Fine, Some(last)), k, s);
    }
  }

  lemma {:induction false} OneMoreRefining(tagged: seq<TaggedTrade>, order: seq<SubRegime>, b: CoarseBucket)
    requires tagged != []
    requires forall i, j :: 0 <= i < j < |order| ==> order[i] != order[j]
    ensures var last := tagged[|tagged| - 1];
            KeptRefining(tagged, order, b) == KeptRefining(tagged[..|tagged| - 1], order, b)
              + if Fine(last).Some? && Fine(last).value in order && CoarseBucketOf(Fine(last).value) == Some(b)
                   && !IsCorruptForceClose(last.trade) then 1 else 0
  {
    hide IsCorruptForceClose, CoarseBucketOf;
    if order != [] {
      OneMoreRefining(tagged, order[..|order| - 1], b);
      assert order == order[..|order| - 1] + [order[|order| - 1]];
    }
  }

  lemma {:induction false} RefiningIsCoarse(tagged: seq<TaggedTrade>, order: seq<SubRegime>, b: CoarseBucket)
    requires forall t :: t in tagged ==> t.Valid()
    requires forall i, j :: 0 <= i < j < |order| ==> order[i] != order[j]
    requires forall t :: t in tagged && Fine(t).Some? ==> Fine(t).value in order
    ensures KeptRefining(tagged, order, b) == Kept(tagged, Coarse, Some(b))
  {
    hide IsCorruptForceClose;
    if tagged == [] {
      NothingRefines(order, b);
    } else {
      var last := tagged[|tagged| - 1];
      assert last in tagged;
      RefiningIsCoarse(tagged[..|tagged| - 1], order, b);
      OneMoreRefining(tagged, order, b);
    }
  }

  lemma {:induction false} NothingRefines(order: seq<SubRegime>, b: CoarseBucket)
    ensures KeptRefining([], order, b) == 0
  {
    if order != [] {
      NothingRefines(order[..|order| - 1], b);
    }
  }

  lemma {:induction false} SeenAll(tagged: seq<TaggedTrade>)
    ensures forall t :: t in tagged && Fine(t).Some? ==> Fine(t).value in Seen(tagged, Fine)
  {
    if tagged != [] {
      SeenAll(tagged[..|tagged| - 1]);
      assert tagged == tagged[..|tagged| - 1] + [tagged[|tagged| - 1]];
    }
  }

  /** A coarse cell analyses exactly the trades of the fine cells that refine it. */
  lemma {:induction false} BucketCountedOnce(tagged: seq<TaggedTrade>, baseK: EffectiveKEstimate, s: Setting,
                                             minBucketN: int,
                                            b: CoarseBucket)
    requires s.num.Ideal() && forall t :: t in tagged ==> t.Valid()
    ensures var cells := Coverage(tagged, baseK, s, minBucketN).cells;
            Analyzed(cells, InBucket(b)) == Analyzed(cells, Refines(b)) == Kept(tagged, Coarse, Some(b))
  {
    hide AnalysisOf, In, IsDescriptive, Kept, KeptRefining, CoarseCells, FineCells, Seen, RegimeK, PerBucket, Fine,
      InBucket, Refines;
    var k, order := RegimeK(tagged, baseK), Seen(tagged, Fine);
    var coarse, fine := CoarseCells(tagged, COARSE_BUCKETS, k, s, minBucketN), FineCells(tagged, order, k, s);
    AnalyzedSplits(coarse, fine, InBucket(b));
    AnalyzedSplits(coarse, fine, Refines(b));
    CoarseCellCounts(tagged, COARSE_BUCKETS, k, s, minBucketN, b);
    NoCoarseAmongFine(tagged, order, k, s, b);
    NoFineAmongCoarse(tagged, COARSE_BUCKETS, k, s, minBucketN, b);
    FineCellsCount(tagged, order, k, s, b);
    SeenExactly(tagged, Fine);
    SeenAll(tagged);
    RefiningIsCoarse(tagged, order, b);
  }

  lemma {:induction false} KeptAddUp(tagged: seq<TaggedTrade>)
    ensures |Genuine(Trades(tagged))|
         == Kept(tagged, Coarse, Some(Bull)) + Kept(tagged, Coarse, Some(Bear)) + Kept(tagged, Coarse, Some(Chop))
            + Kept(tagged, Coarse, None)
  {
    hide IsCorruptForceClose;
    if tagged != [] {
      var rest, last := tagged[..|tagged| - 1], tagged[|tagged| - 1];
      KeptAddUp(rest);
      assert Trades(tagged)[..|tagged| - 1] == Trades(rest) && Trades(tagged)[|tagged| - 1] == last.trade;
      match Coarse(last)
      case None => assert Coarse(last) == None;
      case Some(Bull) => assert Coarse(last) == Some(Bull);
      case Some(Bear) => assert Coarse(last) == Some(Bear);
      case Some(Chop) => assert Coarse(last) == Some(Chop);
    }
  }

  /** Every trade of the pooled analysis is in one coarse cell, or its regime was undefined. */
  lemma {:induction false} CellsAccountForThePool(tagged: seq<TaggedTrade>, baseK: EffectiveKEstimate, s: Setting,
                                                  minBucketN: int)
    requires s.num.Ideal() && forall t :: t in tagged ==> t.Valid()
    ensures var a := Coverage(tagged, baseK, s, minBucketN);
            a.pooled.nTradesAnalyzed
            == Analyzed(a.cells, InBucket(Bull)) + Analyzed(a.cells, InBucket(Bear)) + Analyzed(a.cells, InBucket(Chop))
               + |Genuine(In(tagged, Coarse, None))|
  {
    BucketCountedOnce(tagged, baseK, s, minBucketN, Bull);
    BucketCountedOnce(tagged, baseK, s, minBucketN, Bear);
    BucketCountedOnce(tagged, baseK, s, minBucketN, Chop);
    KeptAddUp(tagged);
    KeptIn(tagged, Coarse, None);
    AnalysisCounts(Trades(tagged), baseK, s);
    hide AnalysisOf, In, Kept, Genuine, CoarseCells, FineCells, Seen, RegimeK, PerBucket, Analyzed, InBucket;
  }

  // ----- searching the regimes costs ----------------------------------------------------------

  /** The trades a cell is about. */
  function TradesOf(tagged: seq<TaggedTrade>, r: Regime): seq<Trade> {
    match r
    case CoarseRegime(b) => In(tagged, Coarse, Some(b))
    case FineRegime(sub) => In(tagged, Fine, Some(sub))
  }

  /** A cell is the analysis of its trades; only coarse cells with enough trades gate. */
  ghost predicate Faithful(cell: RegimeDsrResult, tagged: seq<TaggedTrade>, k: EffectiveKEstimate, s: Setting,
                           minBucketN: int)
    requires s.num.Ideal()
  {
    var a := AnalysisOf(TradesOf(tagged, cell.regime), k, s);
    && cell == CellOf(cell.regime, a, cell.isDescriptive, k.gatingK)
    && (cell.isDescriptive
        <==> cell.regime.FineRegime? || a.finalTier == InsufficientData || a.nTradesAnalyzed < minBucketN)
  }

  lemma {:induction false} CoarseCellsFaithful(tagged: seq<TaggedTrade>, order: seq<CoarseBucket>,
                                               k: EffectiveKEstimate, s: Setting, minBucketN: int)
    requires s.num.Ideal()
    ensures forall c :: c in CoarseCells(tagged, order, k, s, minBucketN) ==> Faithful(c, tagged, k, s, minBucketN)
  {
    hide AnalysisOf, In;
    if order != [] {
      CoarseCellsFaithful(tagged, order[..|order| - 1], k, s, minBucketN);
    }
  }

  lemma {:induction false} FineCellsFaithful(tagged: seq<TaggedTrade>, order: seq<SubRegime>, k: EffectiveKEstimate,
                                             s: Setting, minBucketN: int)
    requires s.num.Ideal()
    ensures forall c :: c in FineCells(tagged, order, k, s) ==> Faithful(c, tagged, k, s, minBucketN)
  {
    hide AnalysisOf, In;
    if order != [] {
      FineCellsFaithful(tagged, order[..|order| - 1], k, s, minBucketN);
    }
  }

  /** The cell is no softer than its trades would be without the search over regimes; and if it is
      deployable it beats the luckiest of all the trials times the regimes searched. */
  ghost predicate PaysForTheSearch(cell: RegimeDsrResult, tagged: seq<TaggedTrade>, baseK: EffectiveKEstimate,
                                   s: Setting, minBucketN: int)
    requires s.num.Ideal()
  {
    && AtLeastAsSevere(cell.tier, AnalysisOf(TradesOf(tagged, cell.regime), baseK, s).finalTier)
    && cell.effectiveK == MaxOfTwo(2000, baseK.pointEstimate * MaxOfTwo(1, |Seen(tagged, Coarse)|))
    && (cell.tier.Deployable() ==>
          && TIER_B_N_MIN <= cell.nTrades && cell.conservativeP < TIER_B_DSR_P_MAX
          && ExpectedMaxSharpe(GatingVariance(s.varianceSrPoint), cell.effectiveK, s.num).Success?
          && ExpectedMaxSharpe(GatingVariance(s.varianceSrPoint), cell.effectiveK, s.num).value < cell.sharpeAdjusted)
    && (cell.tier.Deployable() && minBucketN <= TIER_B_N_MIN ==> (cell.isDescriptive <==> cell.regime.FineRegime?))
  }

  lemma SearchingRegimesCosts(tagged: seq<TaggedTrade>, baseK: EffectiveKEstimate, s: Setting, minBucketN: int)
    requires s.num.Ideal() && baseK.Valid() && 0.0 <= s.varianceSrPoint
    ensures forall cell :: cell in Coverage(tagged, baseK, s, minBucketN).cells
              ==> PaysForTheSearch(cell, tagged, baseK, s, minBucketN)
  {
    hide AnalysisOf, In, CoarseCells, FineCells, Seen, PerBucket, Analyzed, MaxInt, BuildSweep, Analyze,
      ExpectedMaxSharpe, GatingVariance;
    var k := RegimeK(tagged, baseK);
    CoarseCellsFaithful(tagged, COARSE_BUCKETS, k, s, minBucketN);
    FineCellsFaithful(tagged, Seen(tagged, Fine), k, s, minBucketN);
    var n := MaxOfTwo(1, |Seen(tagged, Coarse)|);
    RegimeScalingRaisesK(baseK, n);
    SweepBounds(k.pointEstimate);
    ScalingGrows(baseK.pointEstimate, n, baseK.pointEstimate * n);
    forall cell | cell in Coverage(tagged, baseK, s, minBucketN).cells
      ensures PaysForTheSearch(cell, tagged, baseK, s, minBucketN)
    {
      ScaledVerdict(TradesOf(tagged, cell.regime), baseK, n, s);
    }
  }

  /** How many cells a regime has. */
  function CellCount(cells: seq<RegimeDsrResult>, r: Regime): nat {
    if cells == [] then 0
    else CellCount(cells[..|cells| - 1], r) + (if cells[|cells| - 1].regime == r then 1 else 0)
  }

  lemma {:induction false} CellCountAdds(a: seq<RegimeDsrResult>, b: seq<RegimeDsrResult>, r: Regime)
    ensures CellCount(a + b, r) == CellCount(a, r) + CellCount(b, r)
  {
    if b == [] {
      assert a + b == a;
    } else {
      assert (a + b)[..|a + b| - 1] == a + b[..|b| - 1];
      CellCountAdds(a, b[..|b| - 1], r);
    }
  }

  lemma {:induction false} CountOne(cell: RegimeDsrResult, r: Regime)
    ensures CellCount([cell], r) == (if cell.regime == r then 1 else 0) && CellCount([], r) == 0
  {
    assert [cell][..0] == [];
  }

  lemma {:induction false} CoarseCount(tagged: seq<TaggedTrade>, order: seq<CoarseBucket>, k: EffectiveKEstimate,
                                       s: Setting, minBucketN: int, r: Regime)
    requires s.num.Ideal() && forall i, j :: 0 <= i < j < |order| ==> order[i] != order[j]
    ensures CellCount(CoarseCells(tagged, order, k, s, minBucketN), r)
         == if r.CoarseRegime? && r.bucket in order && TradesOf(tagged, r) != [] then 1 else 0
  {
    hide AnalysisOf, In, CellCount;
    if order == [] {
      assert CoarseCells(tagged, order, k, s, minBucketN) == [];
      CountOne(CellOf(r, AnalysisOf([], k, s), true, 0), r);
    } else {
      var front, b := order[..|order| - 1], order[|order| - 1];
      var trades := In(tagged, Coarse, Some(b));
      assert order == front + [b];
      CoarseCount(tagged, front, k, s, minBucketN, r);
      var a := AnalysisOf(trades, k, s);
      var cell := CellOf(CoarseRegime(b), a, IsDescriptive(a, minBucketN), k.gatingK);
      CountOne(cell, r);
      CellCountAdds(CoarseCells(tagged, front, k, s, minBucketN), if trades == [] then [] else [cell], r);
    }
  }

  lemma {:induction false} FineCount(tagged: seq<TaggedTrade>, order: seq<SubRegime>, k: EffectiveKEstimate,
                                     s: Setting, r: Regime)
    requires s.num.Ideal() && forall i, j :: 0 <= i < j < |order| ==> order[i] != order[j]
    ensures CellCount(FineCells(tagged, order, k, s), r) == if r.FineRegime? && r.sub in order then 1 else 0
  {
    hide AnalysisOf, In, CellCount;
    if order == [] {
      CountOne(CellOf(r, AnalysisOf([], k, s), true, 0), r);
    } else {
      var front, sub := order[..|order| - 1], order[|order| - 1];
      assert order == front + [sub];
      FineCount(tagged, front, k, s, r);
      var cell := CellOf(FineRegime(sub), AnalysisOf(In(tagged, Fine, Some(sub)), k, s), true, k.gatingK);
      CountOne(cell, r);
      CellCountAdds(FineCells(tagged, front, k, s), [cell], r);
    }
  }

  /** Every bucket and every defined regime that holds a trade has exactly one cell, computed on its own
      trades with the trials of the whole search, and every coarse one its own analysis; the pooled
      analysis is that of all trades without the search. */
  lemma {:induction false} EveryBucketHasItsCell(tagged: seq<TaggedTrade>, baseK: EffectiveKEstimate, s: Setting,
                                                 minBucketN: int, r: Regime)
    requires s.num.Ideal()
    ensures var result, k := Coverage(tagged, baseK, s, minBucketN), RegimeK(tagged, baseK);
            && CellCount(result.cells, r) == (if TradesOf(tagged, r) == [] then 0 else 1)
            && (forall cell :: cell in result.cells ==> Faithful(cell, tagged, k, s, minBucketN))
            && (r.CoarseRegime? ==>
                  && (r.bucket in result.perBucket <==> TradesOf(tagged, r) != [])
                  && (TradesOf(tagged, r) != [] ==>
                        result.perBucket[r.bucket] == AnalysisOf(TradesOf(tagged, r), k, s)))
            && result.pooled == AnalysisOf(Trades(tagged), baseK, s)
  {
    hide AnalysisOf, In, CoarseCells, FineCells, Seen, CellCount, RegimeK, Faithful;
    var k := RegimeK(tagged, baseK);
    CoarseCellsFaithful(tagged, COARSE_BUCKETS, k, s, minBucketN);
    FineCellsFaithful(tagged, Seen(tagged, Fine), k, s, minBucketN);
    SeenExactly(tagged, Fine);
    CoarseCount(tagged, COARSE_BUCKETS, k, s, minBucketN, r);
    FineCount(tagged, Seen(tagged, Fine), k, s, r);
    CellCountAdds(CoarseCells(tagged, COARSE_BUCKETS, k, s, minBucketN), FineCells(tagged, Seen(tagged, Fine), k, s),
      r);
    if r.CoarseRegime? {
      match r.bucket case Bull => case Bear => case Chop =>
    }
  }

  lemma ScaledVerdict(trades: seq<Trade>, baseK: EffectiveKEstimate, n: int, s: Setting)
    requires s.num.Ideal() && baseK.Valid() && 0.0 <= s.varianceSrPoint
    ensures var k := RegimeConditionalK(baseK, n);
            var a := AnalysisOf(trades, k, s);
            && AtLeastAsSevere(a.finalTier, AnalysisOf(trades, baseK, s).finalTier)
            && (a.finalTier.Deployable() ==>
                  && TIER_B_N_MIN <= a.nTradesAnalyzed && a.conservativeP < TIER_B_DSR_P_MAX
                  && ExpectedMaxSharpe(GatingVariance(s.varianceSrPoint), k.gatingK, s.num).Success?
                  && ExpectedMaxSharpe(GatingVariance(s.varianceSrPoint), k.gatingK, s.num).value < a.sharpeAdjusted)
  {
    hide Analyze, MaxInt, BuildSweep, ExpectedMaxSharpe, GatingVariance, RegimeConditionalK;
    var k := RegimeConditionalK(baseK, n);
    RegimeScalingNeverSoftens(trades, baseK, n, s.varianceSrPoint, s.costs, s.num);
    RegimeScalingRaisesK(baseK, n);
    if AnalysisOf(trades, k, s).finalTier.Deployable() {
      DeployableClearsEveryCell(trades, k, s.varianceSrPoint, s.costs, s.num);
    }
  }
}
