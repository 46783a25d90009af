/**
 What a poll must do, tier by tier (scripts/run_live_trading.py, 1266-1528 and 1756-1950): whom the two
 loops reach, what raises, and which exits and entries are booked.
 */
module LivePolls {
  import opened RealArithmetic
  import opened Wrappers
  import opened LiveState
  import opened LiveTrading
  import opened LiveGuards

  // ----- the portfolio equity -----------------------------------------------------------------------

  /** The equity that activation is judged by: the capital and realized PnL of the active tiers. */
  lemma {:induction false} ActiveEquityAdds(a: seq<Tier>, b: seq<Tier>)
    ensures ActiveEquity(a + b) == ActiveEquity(a) + ActiveEquity(b)
  {
    if a == [] {
      assert a + b == b;
    } else {
      assert (a + b)[1..] == a[1..] + b;
      ActiveEquityAdds(a[1..], b);
    }
  }

  lemma {:induction false} ActiveEquityOfOne(t: Tier)
    ensures ActiveEquity([t]) == if t.active then Equity(t.state, t.capital, None) else 0.0
    ensures ActiveEquity([]) == 0.0
  {
    assert ActiveEquity([t][1..]) == 0.0;
  }

  // ----- activation reaches every tier --------------------------------------------------------------

  /** The tiers when the turn of tier j comes: those before it are through, it and the later ones are
      as they were. */
  function AtTurn(before: seq<Tier>, after: seq<Tier>, j: nat): seq<Tier>
    requires j <= |before| == |after|
  {
    after[..j] + before[j..]
  }

  /** Nothing stands against activating tier j among these tiers. */
  predicate MayActivate(cfg: Config, tiers: seq<Tier>, j: nat, equity: real, input: ActivationInput)
    requires j < |tiers|
  {
    && !tiers[j].active && input.regimeMatches && input.cleared && tiers[j].activationThreshold <= equity
    && Tally(tiers, IsActive()) + 1 <= cfg.maxConcurrent && Committed(tiers) + tiers[j].capital <= cfg.reserveCap
  }

  /** Every tier gets its turn, whatever became of the earlier ones. */
  lemma {:induction false} ActivationReaches(cfg: Config, tiers: seq<Tier>, i: nat, equity: real,
                                             inputs: int -> ActivationInput, j: nat)
    requires i <= j < |tiers|
    ensures var after := ActivateFrom(cfg, tiers, i, equity, inputs);
            && |after| == |tiers| && after[..i] == tiers[..i]
            && after[j] == if MayActivate(cfg, AtTurn(tiers, after, j), j, equity, inputs(j))
                           then Activated(tiers[j]) else tiers[j]
    decreases |tiers| - i
  {
    hide Tally, Committed, Activated, MayActivate, ActivateFrom;
    var next := if MayActivate(cfg, tiers, i, equity, inputs(i)) then tiers[i := Activated(tiers[i])] else tiers;
    ActivateOne(cfg, tiers, i, equity, inputs);
    var after := ActivateFrom(cfg, tiers, i, equity, inputs);
    SettledPrefix(cfg, next, i + 1, equity, inputs);
    assert after[..i] == after[..i + 1][..i] == next[..i] == tiers[..i];
    if i == j {
      assert AtTurn(tiers, after, j) == tiers;
    } else {
      ActivationReaches(cfg, next, i + 1, equity, inputs, j);
      SameTurns(tiers, next, after, i);
    }
  }

  lemma {:induction false} ActivateOne(cfg: Config, tiers: seq<Tier>, i: nat, equity: real,
                                       inputs: int -> ActivationInput)
    requires i < |tiers|
    ensures var next :=
              if MayActivate(cfg, tiers, i, equity, inputs(i)) then tiers[i := Activated(tiers[i])] else tiers;
            ActivateFrom(cfg, tiers, i, equity, inputs) == ActivateFrom(cfg, next, i + 1, equity, inputs)
  {
    hide Tally, Committed, Activated;
  }

  lemma {:induction false} SettledPrefix(cfg: Config, tiers: seq<Tier>, i: nat, equity: real,
                                         inputs: int -> ActivationInput)
    requires i <= |tiers|
    ensures var after := ActivateFrom(cfg, tiers, i, equity, inputs);
            |after| == |tiers| && after[..i] == tiers[..i]
  {
    hide ActivateFrom;
    ActivationKeeps(cfg, tiers, i, equity, inputs);
    forall j | 0 <= j < i ensures ActivateFrom(cfg, tiers, i, equity, inputs)[j] == tiers[j] {
      EarlierTiersSettled(cfg, tiers, i, equity, inputs, j);
    }
  }

  // ----- processing reaches every tier --------------------------------------------------------------

  /** No earlier active tier raised, each polled among the tiers of its own turn. */
  ghost predicate Reached(cfg: Config, before: seq<Tier>, after: seq<Tier>, i: nat, j: nat, inputs: int -> TierInput)
    requires i <= j <= |before| == |after| && Funded(before) && Funded(after)
  {
    forall k :: i <= k < j && before[k].active ==>
      !ProcessTier(cfg, AtTurn(before, after, k), k, inputs(k)).raised
  }

  /** From tier i on, a tier is polled among the tiers of its own turn exactly if it is active and no
      earlier active tier raised; otherwise it is left as it was. */
  lemma {:induction false} ProcessingReaches(cfg: Config, tiers: seq<Tier>, i: nat, inputs: int -> TierInput, j: nat)
    requires i <= j < |tiers| && Funded(tiers)
    ensures var after := ProcessFrom(cfg, tiers, i, inputs);
            && |after| == |tiers| && Funded(after) && after[..i] == tiers[..i]
            && after[j] == if tiers[j].active && Reached(cfg, tiers, after, i, j, inputs)
                           then ProcessTier(cfg, AtTurn(tiers, after, j), j, inputs(j)).tier else tiers[j]
    decreases |tiers| - i
  {
    hide ProcessTier;
    var after := ProcessFrom(cfg, tiers, i, inputs);
    ProcessingKeeps(cfg, tiers, i, inputs);
    ProcessedPrefix(cfg, tiers, i, inputs);
    assert AtTurn(tiers, after, i) == tiers;
    assert i == j ==> Reached(cfg, tiers, after, i, j, inputs);
    hide Reached, Funded;
    if !tiers[i].active {
      ProcessedPrefix(cfg, tiers, i + 1, inputs);
      assert after[i] == after[..i + 1][i] == tiers[..i + 1][i];
      if i < j {
        ProcessingReaches(cfg, tiers, i + 1, inputs, j);
        ReachedFurther(cfg, tiers, tiers, after, i, j, inputs);
      }
    } else {
      var p := ProcessTier(cfg, tiers, i, inputs(i));
      var next := tiers[i := p.tier];
      ProcessTierKeeps(cfg, tiers, i, inputs(i));
      if !p.raised {
        ProcessedPrefix(cfg, next, i + 1, inputs);
        assert after[i] == after[..i + 1][i] == p.tier;
        if i < j { ProcessingReaches(cfg, next, i + 1, inputs, j); }
      }
      if i < j { ReachedFurther(cfg, tiers, next, after, i, j, inputs); }
    }
  }

  lemma ReachedFurther(cfg: Config, tiers: seq<Tier>, next: seq<Tier>, after: seq<Tier>, i: nat, j: nat,
                       inputs: int -> TierInput)
    requires i < j < |tiers| == |after| == |next| && next == tiers[i := next[i]] && after[..i] == tiers[..i]
    requires Funded(tiers) && Funded(next) && Funded(after)
    ensures Reached(cfg, tiers, after, i, j, inputs)
       <==> && (tiers[i].active ==> !ProcessTier(cfg, tiers, i, inputs(i)).raised)
            && Reached(cfg, next, after, i + 1, j, inputs)
    ensures AtTurn(tiers, after, j) == AtTurn(next, after, j)
  {
    hide ProcessTier, Funded;
    SameTurns(tiers, next, after, i);
    assert AtTurn(tiers, after, i) == tiers;
    hide AtTurn;
  }

  lemma SameTurns(tiers: seq<Tier>, next: seq<Tier>, after: seq<Tier>, i: nat)
    requires |tiers| == |after| == |next| && i < |tiers| && next == tiers[i := next[i]]
    ensures forall k: nat :: i < k <= |tiers| ==> AtTurn(tiers, after, k) == AtTurn(next, after, k)
  {
  }

  lemma {:induction false} ProcessedPrefix(cfg: Config, tiers: seq<Tier>, i: nat, inputs: int -> TierInput)
    requires i <= |tiers| && Funded(tiers)
    ensures var after := ProcessFrom(cfg, tiers, i, inputs);
            |after| == |tiers| && after[..i] == tiers[..i]
    decreases |tiers| - i
  {
    hide ProcessTier;
    if i < |tiers| {
      if !tiers[i].active {
        ProcessedPrefix(cfg, tiers, i + 1, inputs);
        var after := ProcessFrom(cfg, tiers, i + 1, inputs);
        assert after[..i] == after[..i + 1][..i] == tiers[..i + 1][..i] == tiers[..i];
      } else {
        var next := tiers[i := ProcessTier(cfg, tiers, i, inputs(i)).tier];
        ProcessTierKeeps(cfg, tiers, i, inputs(i));
        ProcessedPrefix(cfg, next, i + 1, inputs);
        var after := ProcessFrom(cfg, next, i + 1, inputs);
        assert after[..i] == after[..i + 1][..i] == next[..i + 1][..i] == tiers[..i];
      }
    }
  }

  /** A whole poll: each tier is activated or not at its turn of the first loop, and then polled at its
      turn of the second exactly if it is active and no earlier active tier raised. */
  lemma PollReaches(cfg: Config, tiers: seq<Tier>, input: PollInput, j: nat) returns (activated: seq<Tier>)
    requires Funded(tiers) && j < |tiers| && input.PollInput?
    ensures |activated| == |tiers| == |Poll(cfg, tiers, input)| && Funded(activated) && Funded(Poll(cfg, tiers, input))
    ensures var equity := ActiveEquity(tiers);
            forall k: nat :: k < |tiers| ==>
              activated[k] == if MayActivate(cfg, AtTurn(tiers, activated, k), k, equity, input.activation(k))
                              then Activated(tiers[k]) else tiers[k]
    ensures var after := Poll(cfg, tiers, input);
            after[j] == if activated[j].active && Reached(cfg, activated, after, 0, j, input.tier)
                        then ProcessTier(cfg, AtTurn(activated, after, j), j, input.tier(j)).tier else activated[j]
  {
    hide ActiveEquity, MayActivate, Activated, Reached, ProcessTier, ActivateFrom, ProcessFrom;
    var equity := ActiveEquity(tiers);
    activated := ActivateFrom(cfg, tiers, 0, equity, input.activation);
    ActivationKeeps(cfg, tiers, 0, equity, input.activation);
    forall k: nat | k < |tiers|
      ensures activated[k] == if MayActivate(cfg, AtTurn(tiers, activated, k), k, equity, input.activation(k))
                              then Activated(tiers[k]) else tiers[k]
    {
      ActivationReaches(cfg, tiers, 0, equity, input.activation, k);
    }
    ProcessingReaches(cfg, activated, 0, input.tier, j);
  }

  /** A poll whose regime lookup raised changes nothing. */
  lemma RegimeErrorSkipsPoll(cfg: Config, tiers: seq<Tier>)
    requires Funded(tiers)
    ensures Poll(cfg, tiers, RegimeRaises) == tiers
  {
  }

  /** A run does its polls in order, each from where the last one ended. */
  lemma {:induction false} RunSplits(cfg: Config, tiers: seq<Tier>, a: seq<PollInput>, b: seq<PollInput>)
    requires Funded(tiers)
    ensures RunPolls(cfg, tiers, a + b) == RunPolls(cfg, RunPolls(cfg, tiers, a), b)
    ensures forall p :: RunPolls(cfg, tiers, [p]) == Poll(cfg, tiers, p)
  {
    hide Poll;
    forall p ensures RunPolls(cfg, tiers, [p]) == Poll(cfg, tiers, p) {
      assert [p][..0] == [];
    }
    if b == [] {
      assert a + b == a;
    } else {
      RunSplits(cfg, tiers, a, b[..|b| - 1]);
      assert (a + b)[..|a + b| - 1] == a + b[..|b| - 1];
    }
  }

  // ----- the loss limits ----------------------------------------------------------------------------

  /** The guards in money: a loss of the daily fraction of the capital, or equity down by the drawdown
      fraction of it, halts; a flat tier is also frozen when a quarter of its equity is below the smallest
      order. */
  lemma HaltLimits(cfg: Config, capital: real, realizedPnl: real, equity: real)
    requires 0.0 < capital
    ensures LossHalted(cfg, capital, realizedPnl, equity)
       <==> realizedPnl + capital * cfg.maxDailyLossPct <= 0.0 || equity <= capital * (1.0 - cfg.maxDrawdownPct)
    ensures FrozenAt(cfg, capital, realizedPnl)
       <==> || realizedPnl + capital * cfg.maxDailyLossPct <= 0.0
            || realizedPnl + capital * cfg.maxDrawdownPct <= 0.0 || capital + realizedPnl < 20.0
  {
    FractionLost(capital, equity, cfg.maxDrawdownPct, (capital - equity) / capital);
    FractionLost(capital, capital + realizedPnl, cfg.maxDrawdownPct, (capital - (capital + realizedPnl)) / capital);
  }

  /** What the guards approve, in money and in full: the switch is read and off, the losses are within the daily
      fraction, and the marked equity is within the drawdown fraction. */
  lemma ApprovedExactly(cfg: Config, s: TierState, capital: real, price: real, kill: KillRead)
    requires 0.0 < capital
    ensures var gain := if s.side == LongSide then price - s.entryPrice
                        else if s.side == ShortSide then s.entryPrice - price else 0.0;
            var marked := capital + s.realizedPnl + if s.inPosition && 0.0 < price then gain * s.quantity else 0.0;
            (CheckRiskGuards(cfg, s, capital, price, kill).Approved?
             <==> && kill.KillOff?
                  && 0.0 < s.realizedPnl + capital * cfg.maxDailyLossPct
                  && capital * (1.0 - cfg.maxDrawdownPct) < marked)
  {
    HaltLimits(cfg, capital, s.realizedPnl, Equity(s, capital, Some(price)));
    hide LossHalted;
  }

  lemma FractionLost(capital: real, equity: real, limit: real, lost: real)
    requires 0.0 < capital && lost == (capital - equity) / capital
    ensures limit <= lost <==> equity <= capital * (1.0 - limit)
    ensures capital * (1.0 - limit) == capital - capital * limit
  {
    DivTimes(capital - equity, capital);
    if limit <= lost { ScaledNonNegative(lost - limit, capital, lost * capital - capital * limit); }
    else { ProductPositive(limit - lost, capital, capital * limit - lost * capital); }
  }

  // ----- what raises --------------------------------------------------------------------------------

  /** An entry that passes every check but has no price to size the order at. */
  predicate SizedAtZero(cfg: Config, t: Tier, openSame: nat, bar: Bar, input: TierInput)
    requires t.capital != 0.0 && input.signal.EnterSignal?
  {
    && !t.state.inPosition && input.signal.direction != NoSide && input.regimeAllowsEntry
    && openSame < cfg.maxSameDirection && input.signalGuard == KillOff
    && !LossHalted(cfg, t.capital, t.state.realizedPnl, t.capital + t.state.realizedPnl)
    && bar.close == 0.0 && BINANCE_MIN_NOTIONAL <= (t.capital + t.state.realizedPnl) * POSITION_SIZE_FRACTION
  }

  /** A tier's poll raises exactly if the bars could not be fetched, the signal could not be computed,
      or an approved entry is to be sized at a price of zero. */
  lemma RaisesIff(cfg: Config, tiers: seq<Tier>, i: nat, input: TierInput)
    requires i < |tiers| && tiers[i].capital != 0.0
    ensures ProcessTier(cfg, tiers, i, input).raised
       <==> || input.market.FetchRaises?
            || (input.market.Bars? && input.signal.SignalRaises?)
            || (&& input.market.Bars? && input.signal.EnterSignal?
                && var t := AfterStops(cfg, tiers[i], input.market.last, input);
                   && t.capital != 0.0
                   && SizedAtZero(cfg, t, Tally(tiers[i := t], Holds(input.signal.direction)), input.market.last,
                        input))
  {
    hide Tally, CheckStops, LossHalted, Save, Closed;
  }

  /** Bars, a price and a signal are there. */
  predicate Quiet(input: TierInput) {
    !input.market.FetchRaises? && (input.market.Bars? ==> !input.signal.SignalRaises? && input.market.last.close != 0.0)
  }

  // ----- exits and entries --------------------------------------------------------------------------

  /** Stops and targets close a position exactly when one triggers, nothing blocks it and the order
      fills; a failed order changes nothing. */
  lemma StopExitExactly(cfg: Config, t: Tier, bar: Bar, input: TierInput)
    requires t.capital != 0.0
    ensures var after := AfterStops(cfg, t, bar, input); var exit := CheckStops(t.state, bar);
            if exit.ExitAt? && !BlocksExit(input.stopGuard) && input.stopFill.Filled()
            then after.state == Closed(t.state, input.stopFill.price, exit.reason, t.symbol)
                 && after.row == Some(Save(after.state)) && !after.state.inPosition
            else after == t
  {
    hide LossHalted, Equity, CheckStops, Save;
  }

  /** A close signal the same. */
  lemma SignalExitExactly(cfg: Config, t: Tier, bar: Bar, input: TierInput)
    requires t.capital != 0.0
    ensures var after := AfterCloseSignal(cfg, t, bar, input);
            if t.state.inPosition && !BlocksExit(input.signalGuard) && input.signalFill.Filled()
            then after.state == Closed(t.state, input.signalFill.price, "signal_close", t.symbol)
                 && after.row == Some(Save(after.state)) && !after.state.inPosition
            else after == t
  {
    hide LossHalted, Equity, Save;
  }

  /** A flat tier opens exactly if its regime, the cap, the guards and the size of the order allow it and
      the order fills; otherwise it is left as it was. */
  lemma OpensExactly(cfg: Config, t: Tier, openSame: nat, bar: Bar, input: TierInput)
    requires t.capital > 0.0 && input.signal.EnterSignal? && 0.0 < bar.close
    ensures var p := AfterEntrySignal(cfg, t, openSame, bar, input);
            var slice := (t.capital + t.state.realizedPnl) * POSITION_SIZE_FRACTION;
            if && !t.state.inPosition && input.signal.direction != NoSide && input.regimeAllowsEntry
               && openSame < cfg.maxSameDirection && input.signalGuard == KillOff
               && !LossHalted(cfg, t.capital, t.state.realizedPnl, t.capital + t.state.realizedPnl)
               && BINANCE_MIN_NOTIONAL <= slice && 0.000001 * bar.close <= slice && input.signalFill.Filled()
            then p.tier.state.inPosition && p.tier.row == Some(Save(p.tier.state))
            else p.tier == t
  {
    var slice := (t.capital + t.state.realizedPnl) * POSITION_SIZE_FRACTION;
    if BINANCE_MIN_NOTIONAL <= slice { OneUnitFits(t.capital + t.state.realizedPnl, bar.close); }
    hide CalculateQuantity, LossHalted, Save;
  }

  /** The order is not empty exactly if the slice pays for the smallest one. */
  lemma OneUnitFits(equity: real, price: real)
    requires 0.0 < price && BINANCE_MIN_NOTIONAL <= equity * POSITION_SIZE_FRACTION
    ensures CalculateQuantity(equity, price).Some?
    ensures CalculateQuantity(equity, price).value > 0.0 <==> 0.000001 * price <= equity * POSITION_SIZE_FRACTION
  {
    var spend := equity * POSITION_SIZE_FRACTION;
    RatioAtLeast(spend, price, spend / price);
    assert (spend / price * 1000000.0).Floor >= 1 <==> 1.0 <= spend / price * 1000000.0;
  }

  lemma RatioAtLeast(spend: real, price: real, units: real)
    requires 0.0 < price && units == spend / price
    ensures 0.000001 <= units <==> 0.000001 * price <= spend
  {
  }

  /** Over a whole poll: an open position whose stop or target triggers, fills and is not blocked is
      booked as closed, on every active tier that the poll gets to. */
  lemma ExitIsBookedInPoll(cfg: Config, tiers: seq<Tier>, input: PollInput, j: nat, bar: Bar)
    requires Funded(tiers) && j < |tiers| && input.PollInput? && tiers[j].active
    requires forall k :: 0 <= k < j ==> Quiet(input.tier(k))
    requires input.tier(j).market == Bars(bar) && CheckStops(tiers[j].state, bar).ExitAt?
    requires input.tier(j).stopFill.Filled() && !BlocksExit(input.tier(j).stopGuard)
    ensures |Poll(cfg, tiers, input)| == |tiers|
    ensures var t, after := tiers[j], Poll(cfg, tiers, input)[j];
            var price := input.tier(j).stopFill.price;
            && after.state.history == t.state.history
                 + [RecordOf(t.state, price, CheckStops(t.state, bar).reason, t.symbol)]
            && after.state.realizedPnl == t.state.realizedPnl + NetPnl(t.state, price)
  {
    hide CheckStops, NetPnl, RecordOf, ProcessTier, Poll, AtTurn, MayActivate, Activated;
    var activated := PollReaches(cfg, tiers, input, j);
    var after := Poll(cfg, tiers, input);
    StaysAsItIs(cfg, tiers, activated, j, ActiveEquity(tiers), input.activation(j));
    forall k: nat | k <= j
      ensures |AtTurn(activated, after, k)| == |tiers| && AtTurn(activated, after, k)[k] == activated[k]
      ensures activated[k].capital > 0.0
    {
      TurnIsFunded(activated, after, k);
    }
    forall k | 0 <= k < j && activated[k].active
      ensures !ProcessTier(cfg, AtTurn(activated, after, k), k, input.tier(k)).raised
    {
      QuietNeverRaises(cfg, AtTurn(activated, after, k), k, input.tier(k));
    }
    HaltedTierExits(cfg, AtTurn(activated, after, j), j, bar, input.tier(j));
  }

  lemma StaysAsItIs(cfg: Config, tiers: seq<Tier>, activated: seq<Tier>, j: nat, equity: real, input: ActivationInput)
    requires j < |tiers| == |activated| && tiers[j].active
    ensures !MayActivate(cfg, AtTurn(tiers, activated, j), j, equity, input)
  {
  }

  lemma TurnIsFunded(before: seq<Tier>, after: seq<Tier>, k: nat)
    requires k < |before| == |after| && Funded(before)
    ensures |AtTurn(before, after, k)| == |before|
    ensures AtTurn(before, after, k)[k] == before[k] && before[k].capital > 0.0
  {
  }

  lemma QuietNeverRaises(cfg: Config, tiers: seq<Tier>, i: nat, input: TierInput)
    requires i < |tiers| && tiers[i].capital != 0.0 && Quiet(input)
    ensures !ProcessTier(cfg, tiers, i, input).raised
  {
    hide Tally, ProcessTier, AfterStops, LossHalted;
    RaisesIff(cfg, tiers, i, input);
  }
}
