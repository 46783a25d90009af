/**
 The incremental-pad cost model (research/backtest/cost_model.py) and the corrupt-trade
 filter (scripts/validation_report.py, 276-306). A field missing from a trade record reads
 as 0, as the source's `.get(..., 0.0) or 0.0` does.
 */
module CostModel {
  import opened RealArithmetic

  datatype Trade = Trade(
    symbol: string,
    entryTime: string,
    exitTime: string,
    entryPrice: real,
    exitPrice: real,
    quantity: real,
    entryCommission: real,
    exitCommission: real,
    slippageCost: real,
    returnPct: real)

  datatype CostParameters = CostParameters(
    spreadPctBySymbol: map<string, real>,
    fallbackSpreadPct: real,
    takerFeePct: real,
    slippagePctDefault: real,
    estimatePad: real,
    measuredSpreadsPct: map<string, real>,
    measuredSlippagePct: map<string, real>)

  /** The defaults of `CostModel.v0_unverified`, with no measured component. */
  function V0Unverified(spreads: map<string, real>): CostParameters {
    CostParameters(spreads, 0.20, 0.10, 0.05, 2.0, map[], map[])
  }

  const CORRUPT_EXIT_PRICE_MIN := 0.5
  const CORRUPT_EXIT_PRICE_MAX := 3.0
  const CORRUPT_ENTRY_EXIT_RATIO := 10.0

  predicate IsCorruptForceClose(t: Trade) {
    && 0.0 < t.entryPrice && 0.0 < t.exitPrice
    && CORRUPT_EXIT_PRICE_MIN <= t.exitPrice <= CORRUPT_EXIT_PRICE_MAX
    && (t.entryPrice / t.exitPrice > CORRUPT_ENTRY_EXIT_RATIO || t.exitPrice / t.entryPrice > CORRUPT_ENTRY_EXIT_RATIO)
  }

  /** Which force-closes are corrupt, without a quotient: a positive entry more than ten times away from an
      exit between 0.5 and 3. */
  lemma CorruptIff(t: Trade)
    ensures IsCorruptForceClose(t)
       <==> 0.0 < t.entryPrice && 0.5 <= t.exitPrice <= 3.0
            && (10.0 * t.exitPrice < t.entryPrice || 10.0 * t.entryPrice < t.exitPrice)
  {
    if 0.0 < t.entryPrice && 0.0 < t.exitPrice {
      RatioAbove(t.entryPrice, t.exitPrice, t.entryPrice / t.exitPrice);
      RatioAbove(t.exitPrice, t.entryPrice, t.exitPrice / t.entryPrice);
    }
  }

  lemma RatioAbove(a: real, b: real, ratio: real)
    requires 0.0 < b && ratio == a / b
    ensures 10.0 < ratio <==> 10.0 * b < a
  {
    DivTimes(a, b);
  }

  /** Cost already inside the recorded return, in percent of entry notional. */
  function BookedCostPct(t: Trade): real {
    var notional := t.entryPrice * t.quantity;
    if notional <= 0.0 then 0.0
    else (t.entryCommission + t.exitCommission + t.slippageCost) / notional * 100.0
  }

  function SpreadPct(symbol: string, c: CostParameters): real {
    if symbol in c.measuredSpreadsPct then c.measuredSpreadsPct[symbol]
    else (if symbol in c.spreadPctBySymbol then c.spreadPctBySymbol[symbol] else c.fallbackSpreadPct) * c.estimatePad
  }

  function SlippagePct(symbol: string, c: CostParameters): real {
    if symbol in c.measuredSlippagePct then c.measuredSlippagePct[symbol]
    else c.slippagePctDefault * c.estimatePad
  }

  /** Leg-aware round trip: the exit leg is charged on the exit notional. */
  function ConservativeRoundTripPct(t: Trade, c: CostParameters): real {
    var perSide := SpreadPct(t.symbol, c) / 2.0 + c.takerFeePct + SlippagePct(t.symbol, c);
    var exitLegScale := if t.entryPrice > 0.0 && t.exitPrice > 0.0 then t.exitPrice / t.entryPrice else 1.0;
    perSide * (1.0 + exitLegScale)
  }

  function IncrementalPadPct(t: Trade, c: CostParameters): real {
    var excess := ConservativeRoundTripPct(t, c) - BookedCostPct(t);
    if excess > 0.0 then excess else 0.0
  }

  datatype AdjustedReturn = AdjustedReturn(baseReturnPct: real, conservativeReturnPct: real)

  function ApplyCostModel(t: Trade, c: CostParameters): AdjustedReturn {
    AdjustedReturn(t.returnPct, t.returnPct - IncrementalPadPct(t, c))
  }

  /** The two costs are never added up: in total a trade is charged the larger of what was booked
      and the conservative round trip, so the padded return is at most the recorded one. */
  lemma ChargesTheLargerCost(t: Trade, c: CostParameters)
    ensures var adjusted := ApplyCostModel(t, c);
            var gross := t.returnPct + BookedCostPct(t);
            && adjusted.conservativeReturnPct <= adjusted.baseReturnPct
            && gross - adjusted.conservativeReturnPct
               == if BookedCostPct(t) >= ConservativeRoundTripPct(t, c) then BookedCostPct(t)
                 else ConservativeRoundTripPct(t, c)
  {
  }

  /** In money, each leg is charged on its own notional: a winner's exit costs more than its entry;
      and the booked percentage is the recorded fees and slippage, each once. */
  lemma ChargedPerLeg(t: Trade, c: CostParameters)
    requires 0.0 < t.entryPrice && 0.0 < t.exitPrice && 0.0 < t.quantity
    ensures var perSide := SpreadPct(t.symbol, c) / 2.0 + c.takerFeePct + SlippagePct(t.symbol, c);
            var entryNotional, exitNotional := t.entryPrice * t.quantity, t.exitPrice * t.quantity;
            && ConservativeRoundTripPct(t, c) * entryNotional == perSide * (entryNotional + exitNotional)
            && BookedCostPct(t) * entryNotional == (t.entryCommission + t.exitCommission + t.slippageCost) * 100.0
  {
    hide SpreadPct, SlippagePct;
    var perSide := SpreadPct(t.symbol, c) / 2.0 + c.takerFeePct + SlippagePct(t.symbol, c);
    var entryNotional := t.entryPrice * t.quantity;
    ProductPositive(t.entryPrice, t.quantity, entryNotional);
    var booked := t.entryCommission + t.exitCommission + t.slippageCost;
  }

  /** Where the two components come from: a measured value of the symbol is taken as it is; otherwise the
      symbol's own estimate, or the fallback if it has none, times the pad. Per side a leg pays half the
      spread, the fee and the slippage; without two prices both legs count the same. */
  lemma ComponentsComeFrom(t: Trade, c: CostParameters, spread: real, slippage: real)
    requires t.entryPrice <= 0.0 || t.exitPrice <= 0.0 || t.entryPrice == t.exitPrice
    requires t.symbol in c.measuredSpreadsPct ==> spread == c.measuredSpreadsPct[t.symbol]
    requires t.symbol !in c.measuredSpreadsPct && t.symbol in c.spreadPctBySymbol ==>
               spread == c.estimatePad * c.spreadPctBySymbol[t.symbol]
    requires t.symbol !in c.measuredSpreadsPct && t.symbol !in c.spreadPctBySymbol ==>
               spread == c.estimatePad * c.fallbackSpreadPct
    requires slippage == if t.symbol in c.measuredSlippagePct then c.measuredSlippagePct[t.symbol]
                         else c.estimatePad * c.slippagePctDefault
    ensures ConservativeRoundTripPct(t, c) == spread + 2.0 * c.takerFeePct + 2.0 * slippage
  {
    if 0.0 < t.entryPrice { assert t.entryPrice / t.entryPrice == 1.0; }
  }

  /** Only estimated components are padded: with both measured, the pad does not matter; with
      neither, doubling an unpadded model's pad adds exactly the estimates again, on both legs. */
  lemma OnlyEstimatesArePadded(t: Trade, c: CostParameters, pad: real)
    ensures t.symbol in c.measuredSpreadsPct && t.symbol in c.measuredSlippagePct ==>
              ConservativeRoundTripPct(t, c.(estimatePad := pad)) == ConservativeRoundTripPct(t, c)
    ensures t.symbol !in c.measuredSpreadsPct && t.symbol !in c.measuredSlippagePct ==>
              SpreadPct(t.symbol, c.(estimatePad := 2.0)) == 2.0 * SpreadPct(t.symbol, c.(estimatePad := 1.0))
              && SlippagePct(t.symbol, c.(estimatePad := 2.0)) == 2.0 * SlippagePct(t.symbol, c.(estimatePad := 1.0))
  {
    if t.symbol in c.measuredSpreadsPct && t.symbol in c.measuredSlippagePct {
    }
  }

}
