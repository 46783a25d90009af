/**
 The live loop as the source writes it: methods that update the tiers in place. Each is proved equal
 to the function of module LiveTrading that the properties are stated about.
 */
module LiveTraderLoop {
  import opened Wrappers
  import opened LiveState
  import opened LiveTrading

  class LiveTrader {
    const cfg: Config
    var tiers: seq<Tier>

    constructor (cfg: Config, tiers: seq<Tier>)
      ensures this.cfg == cfg && this.tiers == tiers
    {
      this.cfg, this.tiers := cfg, tiers;
    }

    /** Load tier 1 and start it unless the promotion gate blocks it. */
    method Start(blocked: bool)
      requires tiers != []
      modifies this
      ensures tiers == Startup(old(tiers), blocked)
    {
      tiers := tiers[0 := tiers[0].(state := Load(tiers[0].row))];
      tiers := tiers[0 := tiers[0].(active := !blocked)];
    }

    /** Book a closed trade: update the running total, append the record, clear the position. */
    method RecordClosedTrade(i: nat, exitPrice: real, exitReason: string) returns (netPnl: real)
      requires i < |tiers|
      modifies this
      ensures var t := old(tiers)[i];
              tiers == old(tiers)[i := t.(state := Closed(t.state, exitPrice, exitReason, t.symbol))]
      ensures netPnl == NetPnl(old(tiers)[i].state, exitPrice)
    {
      hide Round4, Round6, GrossPnl, Commission, ReturnPct;
      var s := tiers[i].state;
      var gross := GrossPnl(s, exitPrice);
      var entryCommission := Commission(s.entryPrice, s.quantity);
      var exitCommission := Commission(exitPrice, s.quantity);
      netPnl := gross - (entryCommission + exitCommission);
      var returnPct := ReturnPct(netPnl, s.entryPrice, s.quantity);
      s := s.(realizedPnl := s.realizedPnl + netPnl, totalTrades := s.totalTrades + 1);
      s := s.(history := s.history + [TradeRecord(s.side, tiers[i].symbol, s.entryPrice, exitPrice, s.quantity,
        Round6(entryCommission), Round6(exitCommission), Round4(gross), Round4(netPnl), Round4(returnPct), exitReason,
          s.entryTime)]);
      s := s.(inPosition := false, side := NoSide, quantity := 0.0, entryPrice := 0.0, entryTime := "",
        stopLoss := None, takeProfit := None);
      tiers := tiers[i := tiers[i].(state := s)];
    }

    /** Write the tier's own row: a restart from it is then sound, if the state was. */
    method SaveState(i: nat)
      requires i < |tiers|
      modifies this
      ensures tiers == old(tiers)[i := old(tiers)[i].(row := Some(Save(old(tiers)[i].state)))]
      ensures Kept(old(tiers)[i].state) ==> CrashSafe(tiers[i])
    {
      if Kept(tiers[i].state) { SavedIsSafe(tiers[i], tiers[i].state); }
      tiers := tiers[i := tiers[i].(row := Some(Save(tiers[i].state)))];
    }

    method CloseAndSave(i: nat, exitPrice: real, exitReason: string)
      requires i < |tiers|
      modifies this
      ensures var t := old(tiers)[i];
              tiers == old(tiers)[i := Saved(t, Closed(t.state, exitPrice, exitReason, t.symbol))]
    {
      hide Closed, Save;
      var _ := RecordClosedTrade(i, exitPrice, exitReason);
      SaveState(i);
    }

    /** The activation loop of a poll. */
    method ActivateTiers(inputs: int -> ActivationInput)
      modifies this
      ensures tiers == ActivateFrom(cfg, old(tiers), 0, ActiveEquity(old(tiers)), inputs)
    {
      hide CanActivate, ActiveEquity, Load;
      var equity := ActiveEquity(tiers);
      for i := 0 to |tiers|
        invariant |tiers| == |old(tiers)|
        invariant ActivateFrom(cfg, tiers, i, equity, inputs) == ActivateFrom(cfg, old(tiers), 0, equity, inputs)
      {
        var tier := tiers[i];
        if tier.active || !inputs(i).regimeMatches || equity < tier.activationThreshold || !inputs(i).cleared {
          continue;
        }
        if CanActivate(cfg, tiers, tier) {
          ghost var before := tiers;
          tiers := tiers[i := tier.(active := true)];
          tiers := tiers[i := tiers[i].(state := Load(tiers[i].row))];
          assert tiers == before[i := Activated(tier)];
        }
      }
    }

    /** Step 1 of a tier's poll. */
    method EnforceStops(i: nat, bar: Bar, input: TierInput)
      requires i < |tiers| && tiers[i].capital != 0.0
      modifies this
      ensures tiers == old(tiers)[i := AfterStops(cfg, old(tiers)[i], bar, input)]
    {
      hide CheckStops, CheckRiskGuards, Closed, Save;
      var t := tiers[i];
      var exit := CheckStops(t.state, bar);
      if exit.ExitAt? {
        var verdict := CheckRiskGuards(cfg, t.state, t.capital, bar.close, input.stopGuard);
        if ExitAllowed(verdict) && input.stopFill.Filled() {
          CloseAndSave(i, input.stopFill.price, exit.reason);
        }
      }
    }

    /** One poll of one tier; `raised` when an exception leaves the method. */
    method PollTier(i: nat, input: TierInput) returns (raised: bool)
      requires i < |tiers| && tiers[i].capital != 0.0
      modifies this
      ensures var p := ProcessTier(cfg, old(tiers), i, input);
              tiers == old(tiers)[i := p.tier] && raised == p.raised
    {
      hide AfterStops, CheckRiskGuards, Closed, Save, Equity, CalculateQuantity, Tally;
      if input.market.FetchRaises? {
        return true;
      }
      if input.market.TooFewBars? {
        return false;
      }
      var bar := input.market.last;
      StopsKeepCapital(cfg, tiers[i], bar, input);
      EnforceStops(i, bar, input);
      var t := tiers[i];
      match input.signal
      case SignalRaises => return true;
      case NoSignal => return false;
      case CloseSignal =>
        if t.state.inPosition {
          var verdict := CheckRiskGuards(cfg, t.state, t.capital, bar.close, input.signalGuard);
          if ExitAllowed(verdict) && input.signalFill.Filled() {
            CloseAndSave(i, input.signalFill.price, "signal_close");
          }
        }
        return false;
      case EnterSignal(direction, stopLoss, takeProfit) =>
        if t.state.inPosition || direction == NoSide || !input.regimeAllowsEntry {
          return false;
        }
        if Tally(tiers, Holds(direction)) >= cfg.maxSameDirection {
          return false;
        }
        if CheckRiskGuards(cfg, t.state, t.capital, bar.close, input.signalGuard) != Approved {
          return false;
        }
        var quantity := CalculateQuantity(Equity(t.state, t.capital, Some(bar.close)), bar.close);
        if quantity.None? {
          return true;
        }
        if quantity.value > 0.0 && input.signalFill.Filled() {
          var price := input.signalFill.price;
          tiers := tiers[i := t.(state := Opened(t.state, direction, quantity.value, price, input.now,
                                                 stopLoss, takeProfit))];
          SaveState(i);
        }
        return false;
    }

    /** One poll: activation, then every active tier until one raises. */
    method PollOnce(input: PollInput)
      requires Funded(tiers)
      modifies this
      ensures tiers == Poll(cfg, old(tiers), input)
    {
      hide ActivateFrom, ActiveEquity, ProcessTier;
      if input.RegimeRaises? {
        return;
      }
      ActivationKeeps(cfg, tiers, 0, ActiveEquity(tiers), input.activation);
      ActivateTiers(input.activation);
      ghost var activated := tiers;
      for i := 0 to |tiers|
        invariant |tiers| == |activated| && Funded(tiers)
        invariant ProcessFrom(cfg, tiers, i, input.tier) == ProcessFrom(cfg, activated, 0, input.tier)
      {
        if tiers[i].active {
          ProcessTierKeeps(cfg, tiers, i, input.tier(i));
          var raised := PollTier(i, input.tier(i));
          if raised {
            return;
          }
        }
      }
    }
  }

  lemma StopsKeepCapital(cfg: Config, t: Tier, bar: Bar, input: TierInput)
    requires t.capital != 0.0
    ensures AfterStops(cfg, t, bar, input).capital == t.capital
  {
  }
}
