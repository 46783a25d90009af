/** Tier classification and its resolution (research/promotion/classifier.py, 26-143). */
module Classifier {
  import opened ReturnMetrics

  datatype Tier = TierA | TierB | TierC | TierD | InsufficientData {
    predicate Deployable() {
      TierA? || TierB?
    }
  }

  const TIER_A_DSR_P_MAX := 0.20
  const TIER_A_PF_MIN := 1.35
  const TIER_A_SHARPE_MIN := 1.0
  const TIER_A_N_MIN := 30
  const TIER_A_MAX_DD_MAX := 5.0
  const TIER_B_DSR_P_MAX := 0.30
  const TIER_B_PF_MIN := 1.25
  const TIER_B_SHARPE_MIN := 0.8
  const TIER_B_N_MIN := 20
  const TIER_B_MAX_DD_MAX := 5.0
  const TIER_D_DSR_P := 0.50
  const TIER_D_MAX_DD := 10.0
  const MIN_N_FOR_CLASSIFICATION := 10

  function ClassifyTier(dsrPValue: real, maxDdPct: real, pf: ProfitFactor, sharpe: real, nTrades: nat): Tier {
    if nTrades < MIN_N_FOR_CLASSIFICATION then InsufficientData
    else if dsrPValue >= TIER_D_DSR_P || maxDdPct >= TIER_D_MAX_DD then TierD
    else if && dsrPValue < TIER_A_DSR_P_MAX && maxDdPct < TIER_A_MAX_DD_MAX && pf.AtLeast(TIER_A_PF_MIN)
            && sharpe >= TIER_A_SHARPE_MIN && nTrades >= TIER_A_N_MIN then TierA
    else if && dsrPValue < TIER_B_DSR_P_MAX && maxDdPct < TIER_B_MAX_DD_MAX && pf.AtLeast(TIER_B_PF_MIN)
            && sharpe >= TIER_B_SHARPE_MIN && nTrades >= TIER_B_N_MIN then TierB
    else TierC
  }

  /** Gate on the conservative tier, except that real-but-fragile is held at C. */
  function ResolveFinalTier(baseTier: Tier, conservativeTier: Tier): (Tier, bool) {
    var fragility := baseTier != conservativeTier;
    (if fragility && baseTier.Deployable() && conservativeTier == TierD then TierC else conservativeTier, fragility)
  }

  function Severity(t: Tier): nat {
    match t
    case TierA => 0
    case TierB => 1
    case TierC => 2
    case TierD => 3
    case InsufficientData => 4
  }

  /** `worse` is at least as severe as `t`; no verdict is only comparable with no verdict. */
  predicate AtLeastAsSevere(worse: Tier, t: Tier) {
    (worse == InsufficientData <==> t == InsufficientData) && Severity(t) <= Severity(worse)
  }

  /** Deployable means exactly the Tier B bounds, since those of Tier A are stricter and neither can
      meet a Tier D condition; retired means exactly a Tier D condition on enough trades. */
  lemma DeployableExactly(p: real, dd: real, pf: ProfitFactor, sharpe: real, n: nat)
    ensures ClassifyTier(p, dd, pf, sharpe, n).Deployable()
       <==> 20 <= n && p < 0.30 && dd < 5.0 && pf.AtLeast(1.25) && 0.8 <= sharpe
    ensures ClassifyTier(p, dd, pf, sharpe, n) == TierA
       <==> 30 <= n && p < 0.20 && dd < 5.0 && pf.AtLeast(1.35) && 1.0 <= sharpe
    ensures ClassifyTier(p, dd, pf, sharpe, n) == TierD <==> 10 <= n && (0.50 <= p || 10.0 <= dd)
  {
  }

  /** Worse evidence in every argument never earns a better tier. */
  lemma ClassifyMonotone(p: real, dd: real, pf: ProfitFactor, sharpe: real,
                         p': real, dd': real, pf': ProfitFactor, sharpe': real, n: nat)
    requires p <= p' && dd <= dd' && pf'.AtMost(pf) && sharpe' <= sharpe
    ensures AtLeastAsSevere(ClassifyTier(p', dd', pf', sharpe', n), ClassifyTier(p, dd, pf, sharpe, n))
  {
  }

  lemma ResolveMonotone(base: Tier, conservative: Tier, base': Tier, conservative': Tier)
    requires AtLeastAsSevere(base', base) && AtLeastAsSevere(conservative', conservative)
    requires base == InsufficientData <==> conservative == InsufficientData
    ensures AtLeastAsSevere(ResolveFinalTier(base', conservative').0, ResolveFinalTier(base, conservative).0)
  {
  }

  /** The softening never makes a strategy deployable: only the conservative case does. */
  lemma OnlyConservativeDeploys(base: Tier, conservative: Tier)
    ensures ResolveFinalTier(base, conservative).0.Deployable() <==> conservative.Deployable()
    ensures ResolveFinalTier(base, conservative).0 != conservative
       <==> base.Deployable() && conservative == TierD
  {
  }
}
