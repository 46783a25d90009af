/**
 What the risk guards do and do not block: exits (scripts/run_live_trading.py, 945-1016, 1312-1350 and
 1394-1420), and entries after a restart (743-782, 985-1016).
 */
module LiveGuards {
  import opened RealArithmetic
  import opened Wrappers
  import opened LiveState
  import opened LiveTrading

  // ----- exits ------------------------------------------------------------------------------------

  /** The reads that stop an exit: the switch itself, and a database error whose text names it. */
  predicate BlocksExit(kill: KillRead) {
    kill.KillOn? || kill == DbError(true)
  }

  /** When a stop or target triggers and its order fills, the position stays open exactly if the
      kill-switch read blocks exits: never for the tier's losses, whatever they are. */
  lemma StopExitBlockedIff(cfg: Config, t: Tier, bar: Bar, input: TierInput)
    requires t.capital != 0.0 && CheckStops(t.state, bar).ExitAt? && input.stopFill.Filled()
    ensures AfterStops(cfg, t, bar, input).state.inPosition <==> BlocksExit(input.stopGuard)
    ensures AfterStops(cfg, t, bar, input).state
         == if BlocksExit(input.stopGuard) then t.state
            else Closed(t.state, input.stopFill.price, CheckStops(t.state, bar).reason, t.symbol)
  {
    hide LossHalted, Equity;
  }

  /** The same of a close signal. */
  lemma SignalExitBlockedIff(cfg: Config, t: Tier, bar: Bar, input: TierInput)
    requires t.capital != 0.0 && t.state.inPosition && input.signalFill.Filled()
    ensures AfterCloseSignal(cfg, t, bar, input).state.inPosition <==> BlocksExit(input.signalGuard)
    ensures AfterCloseSignal(cfg, t, bar, input).state
         == if BlocksExit(input.signalGuard) then t.state
           else Closed(t.state, input.signalFill.price, "signal_close", t.symbol)
  {
    hide LossHalted, Equity;
  }

  /** Over a whole poll of a tier past its loss or drawdown limit: a triggered exit whose order fills is
      booked, and no position is opened in its place. */
  lemma HaltedTierExits(cfg: Config, tiers: seq<Tier>, i: nat, bar: Bar, input: TierInput)
    requires i < |tiers| && tiers[i].capital != 0.0 && tiers[i].active && input.market == Bars(bar)
    requires CheckStops(tiers[i].state, bar).ExitAt? && input.stopFill.Filled() && !BlocksExit(input.stopGuard)
    ensures var t := tiers[i]; var after := ProcessTier(cfg, tiers, i, input).tier;
            && after.state.history
               == t.state.history + [RecordOf(t.state, input.stopFill.price, CheckStops(t.state, bar).reason, t.symbol)]
            && after.state.realizedPnl == t.state.realizedPnl + NetPnl(t.state, input.stopFill.price)
            && (FrozenAt(cfg, t.capital, after.state.realizedPnl) ==> !after.state.inPosition)
  {
    hide LossHalted, NetPnl, RecordOf, Tally;
    StopExitBlockedIff(cfg, tiers[i], bar, input);
  }

  // ----- the halt across a restart ----------------------------------------------------------------

  function Restarted(t: Tier): Tier {
    t.(state := Load(Some(Save(t.state))))
  }

  /** A halt survives a restart exactly if the recorded trades, added up, still break a limit. */
  lemma HaltSurvivesIff(cfg: Config, t: Tier)
    requires t.capital > 0.0 && t.active && !t.state.inPosition
    ensures Frozen(cfg, t) <==> FrozenAt(cfg, t.capital, t.state.realizedPnl)
    ensures Frozen(cfg, Restarted(t)) <==> FrozenAt(cfg, t.capital, RecordedPnl(t.state.history))
  {
    hide LossHalted, RecordedPnl;
  }

  lemma FrozenBelow(cfg: Config, capital: real, low: real, high: real)
    requires capital > 0.0 && low <= high && FrozenAt(cfg, capital, high)
    ensures FrozenAt(cfg, capital, low)
  {
    DivisionMonotone(capital - (capital + high), capital - (capital + low), capital);
  }

  /** A limit broken with half a unit of the fourth decimal to spare for each trade stays broken. */
  lemma HaltSurvivesWithMargin(cfg: Config, t: Tier)
    requires t.capital > 0.0 && t.active && !t.state.inPosition && Kept(t.state)
    requires FrozenAt(cfg, t.capital, t.state.realizedPnl + (|t.state.history| as real) * ROUNDING_ERROR)
    ensures Frozen(cfg, Restarted(t))
  {
    hide FrozenAt, Frozen, RecordedPnl;
    var worst := t.state.realizedPnl + (|t.state.history| as real) * ROUNDING_ERROR;
    FrozenBelow(cfg, t.capital, RecordedPnl(t.state.history), worst);
    HaltSurvivesIff(cfg, t);
  }

  /** The total and the records since the last restart, for trades of these net PnLs: the total is
      what was restored then and the nets, and each net is recorded rounded to four places. */
  ghost predicate Booked(s: TierState, start: nat, nets: seq<real>) {
    && |s.history| == start + |nets|
    && s.realizedPnl == RecordedPnl(s.history[..start]) + SumOf(nets)
    && forall i :: 0 <= i < |nets| ==> s.history[start + i].realizedPnl == Round4(nets[i])
  }

  /** How many trades were closed before the last restart. */
  function ClosedBeforeRestart(ops: seq<BookOp>, symbol: string): nat {
    if ops == [] then 0
    else if ops[|ops| - 1].Restart? then |BooksAfter(ops, symbol).nets|
    else ClosedBeforeRestart(ops[..|ops| - 1], symbol)
  }

  /** Every state of the books is of that form. */
  lemma {:induction false} BooksAreBooked(ops: seq<BookOp>, symbol: string)
    ensures var b, start := BooksAfter(ops, symbol), ClosedBeforeRestart(ops, symbol);
            start <= |b.nets| && Booked(b.state, start, b.nets[start..])
  {
    hide Booked, Closed, Load, Save;
    if ops == [] {
      NothingIsBooked();
    } else {
      var before, last := BooksAfter(ops[..|ops| - 1], symbol), ops[|ops| - 1];
      var start := ClosedBeforeRestart(ops[..|ops| - 1], symbol);
      BooksAreBooked(ops[..|ops| - 1], symbol);
      match last
      case Open(_, _, _, _, _, _) =>
        OpenBooks(before.state, start, before.nets[start..], BooksAfter(ops, symbol).state);
      case Close(exitPrice, reason) =>
        var net := NetPnl(before.state, exitPrice);
        CloseBooks(before.state, start, before.nets[start..], exitPrice, reason, symbol);
        assert (before.nets + [net])[start..] == before.nets[start..] + [net];
      case Restart =>
        BookedCounts(before.state, start, before.nets[start..]);
        RestartBooks(before.state, before.nets);
        assert before.nets[|before.nets|..] == [];
    }
  }

  lemma NothingIsBooked()
    ensures Booked(FRESH, 0, [])
  {
  }

  lemma BookedCounts(s: TierState, start: nat, nets: seq<real>)
    requires Booked(s, start, nets)
    ensures |s.history| == start + |nets|
  {
  }

  lemma OpenBooks(s: TierState, start: nat, nets: seq<real>, s': TierState)
    requires Booked(s, start, nets) && s'.history == s.history && s'.realizedPnl == s.realizedPnl
    ensures Booked(s', start, nets)
  {
  }

  lemma CloseBooks(s: TierState, start: nat, nets: seq<real>, exitPrice: real, reason: string, symbol: string)
    requires Booked(s, start, nets)
    ensures Booked(Closed(s, exitPrice, reason, symbol), start, nets + [NetPnl(s, exitPrice)])
  {
    hide NetPnl, Round6, GrossPnl, Round4, RecordedPnl, SumOf, ReturnPct, Commission;
    SumAppend(nets, NetPnl(s, exitPrice));
    assert Closed(s, exitPrice, reason, symbol).history[..start] == s.history[..start];
  }

  lemma RestartBooks(s: TierState, nets: seq<real>)
    requires |s.history| == |nets|
    ensures Booked(Load(Some(Save(s))), |nets|, [])
  {
    assert s.history[..|nets|] == s.history;
  }

  /** The most that n recorded trades can add up to when their net PnLs add up to the total: half a
      unit more for each, in whole units of the fourth decimal, and a tie of every trade only in even
      ones. */
  function MostRecorded(total: real, n: nat): real {
    MostUnits(total * 10000.0, n) as real / 10000.0
  }

  function MostUnits(total: real, n: nat): int {
    var bound := total + n as real / 2.0;
    if bound == bound.Floor as real && bound.Floor % 2 == 1 then bound.Floor - 1 else bound.Floor
  }

  /** The records of these trades, added up in units of the fourth decimal. */
  function Units(nets: seq<real>): int {
    if nets == [] then 0 else Units(nets[..|nets| - 1]) + RoundHalfEven(nets[|nets| - 1] * 10000.0)
  }

  lemma {:induction false} UnitsBounded(nets: seq<real>)
    ensures var bound := SumOf(nets) * 10000.0 + |nets| as real / 2.0;
            Units(nets) as real <= bound && (Units(nets) as real == bound ==> Units(nets) % 2 == 0)
  {
    if nets != [] {
      UnitsBounded(nets[..|nets| - 1]);
    }
  }

  lemma {:induction false} MostUnitsIsLargest(nets: seq<real>)
    ensures Units(nets) <= MostUnits(SumOf(nets) * 10000.0, |nets|)
  {
    UnitsBounded(nets);
  }

  function Alike(x: real, n: nat): seq<real> {
    seq(n, _ => x)
  }

  lemma {:induction false} AlikeSum(x: real, n: nat)
    requires RoundHalfEven(x * 10000.0) == 0
    ensures SumOf(Alike(x, n)) == n as real * x && Units(Alike(x, n)) == 0
  {
    if 0 < n {
      assert Alike(x, n)[..n - 1] == Alike(x, n - 1);
      hide RoundHalfEven;
      AlikeSum(x, n - 1);
    }
  }

  lemma RoundsTo(k: int, gap: real)
    requires -0.5 <= gap <= 0.5 && ((gap == 0.5 || gap == -0.5) ==> k % 2 == 0)
    ensures RoundHalfEven(k as real - gap) == k
  {
  }

  /** As many trades, with that total, whose records add up to the most. */
  lemma MostUnitsReached(total: real, n: nat) returns (nets: seq<real>)
    requires n == 0 ==> total == 0.0
    ensures |nets| == n && SumOf(nets) == total && Units(nets) == MostUnits(total * 10000.0, n)
  {
    hide MostUnits, RoundHalfEven;
    var units := MostUnits(total * 10000.0, n);
    if n == 0 {
      nets := [];
      NoUnits();
    } else {
      var gap := (units as real - total * 10000.0) / n as real;
      GapBounds(total * 10000.0, n, units, gap);
      nets := EvenlyRounded(units, gap, n);
    }
  }

  lemma NoUnits()
    ensures MostUnits(0.0, 0) == 0
  {
  }

  /** One trade recorded with all the units and the others with none, each by the same amount above its
      net PnL. */
  lemma EvenlyRounded(units: int, gap: real, n: nat) returns (nets: seq<real>)
    requires 0 < n && -0.5 <= gap <= 0.5 && ((gap == 0.5 || gap == -0.5) ==> units % 2 == 0)
    ensures |nets| == n && SumOf(nets) * 10000.0 == units as real - n as real * gap && Units(nets) == units
  {
    hide RoundHalfEven, SumOf, Units;
    RoundsTo(0, gap);
    RoundsTo(units, gap);
    var rest, first := -gap / 10000.0, (units as real - gap) / 10000.0;
    AlikeSum(rest, n - 1);
    nets := Alike(rest, n - 1) + [first];
    SumAppend(Alike(rest, n - 1), first);
    UnitsAppend(Alike(rest, n - 1), first);
  }

  lemma {:induction false} UnitsAppend(nets: seq<real>, net: real)
    ensures Units(nets + [net]) == Units(nets) + RoundHalfEven(net * 10000.0)
  {
    assert (nets + [net])[..|nets|] == nets;
  }

  /** Spread over the trades, what the records add is at most half a unit each. */
  lemma GapBounds(total: real, n: nat, units: int, gap: real)
    requires 0 < n && units == MostUnits(total, n) && gap == (units as real - total) / n as real
    ensures n as real * gap == units as real - total
    ensures -0.5 <= gap <= 0.5 && ((gap == 0.5 || gap == -0.5) ==> units % 2 == 0)
  {
  }

  /** Records of the trades since the restart, for given net PnLs. */
  function Recording(history: seq<TradeRecord>, start: nat, nets: seq<real>): seq<TradeRecord>
    requires |history| == start + |nets|
  {
    history[..start] + seq(|nets|, i requires 0 <= i < |nets| => history[start + i].(realizedPnl := Round4(nets[i])))
  }

  lemma {:induction false} RecordedUnits(s: TierState, start: nat, nets: seq<real>)
    requires Booked(s, start, nets)
    ensures RecordedPnl(s.history) == RecordedPnl(s.history[..start]) + Units(nets) as real / 10000.0
    decreases |nets|
  {
    if nets == [] {
      assert s.history[..start] == s.history;
    } else {
      var n := |nets| - 1;
      var front, last := nets[..n], nets[n];
      var before := s.(history := s.history[..start + n], realizedPnl := s.realizedPnl - last);
      assert before.history[..start] == s.history[..start];
      assert s.history[..|s.history| - 1] == before.history;
      assert s.history[start + n].realizedPnl == Round4(last);
      RecordedUnits(before, start, front);
    }
  }

  /** Any net PnL above the loss of the whole stake is that of some fill of a long position. */
  lemma EveryNetHasAPrice(s: TierState, net: real) returns (price: real)
    requires s.side == LongSide && 0.0 < s.quantity && 0.0 < s.entryPrice
    requires -(s.entryPrice * s.quantity) * (1.0 + COMMISSION_RATE) < net
    ensures 0.0 < price && NetPnl(s, price) == net
  {
    var stake := s.entryPrice * s.quantity;
    var proceeds := (net + stake * (1.0 + COMMISSION_RATE)) / (1.0 - COMMISSION_RATE);
    price := proceeds / s.quantity;
    DivTimes(proceeds, s.quantity);
    assert NetPnl(s, price)
        == price * s.quantity - stake - (stake * COMMISSION_RATE + price * s.quantity * COMMISSION_RATE);
  }

  /** What is known of the loss before the restart is the total, what the last restart had restored
      and the number of trades since. Whatever the trades were, the halt survives exactly if the most
      that their records can add up to still breaks a limit. */
  lemma HaltSurvivesAllTradesIff(cfg: Config, t: Tier, start: nat, nets: seq<real>)
    requires t.capital > 0.0 && t.active && !t.state.inPosition && Booked(t.state, start, nets)
    ensures (forall history, others :: |others| == |nets| && Booked(t.state.(history := history), start, others)
                                       && history[..start] == t.state.history[..start]
               ==> Frozen(cfg, Restarted(t.(state := t.state.(history := history)))))
       <==> var restored := RecordedPnl(t.state.history[..start]);
            FrozenAt(cfg, t.capital, restored + MostRecorded(t.state.realizedPnl - restored, |nets|))
  {
    hide FrozenAt, Frozen, RecordedPnl, SumOf, MostRecorded, Round4;
    var restored := RecordedPnl(t.state.history[..start]);
    var worst := restored + MostRecorded(t.state.realizedPnl - restored, |nets|);
    if FrozenAt(cfg, t.capital, worst) {
      forall history, others | |others| == |nets| && Booked(t.state.(history := history), start, others)
                               && history[..start] == t.state.history[..start]
        ensures Frozen(cfg, Restarted(t.(state := t.state.(history := history))))
      {
        RecordsAtMost(t.state.(history := history), start, others);
        FrozenBelow(cfg, t.capital, RecordedPnl(history), worst);
        HaltSurvivesIff(cfg, t.(state := t.state.(history := history)));
      }
    } else {
      var history, others := WorstRecords(t.state, start, nets);
      HaltSurvivesIff(cfg, t.(state := t.state.(history := history)));
    }
  }

  lemma RecordsAtMost(s: TierState, start: nat, nets: seq<real>)
    requires Booked(s, start, nets)
    ensures var restored := RecordedPnl(s.history[..start]);
            RecordedPnl(s.history) <= restored + MostRecorded(s.realizedPnl - restored, |nets|)
  {
    hide RecordedPnl, SumOf, Units, MostUnits, Round4;
    RecordedUnits(s, start, nets);
    MostUnitsIsLargest(nets);
  }

  lemma WorstRecords(s: TierState, start: nat, nets: seq<real>) returns (history: seq<TradeRecord>, others: seq<real>)
    requires Booked(s, start, nets)
    ensures |others| == |nets| && Booked(s.(history := history), start, others)
    ensures history[..start] == s.history[..start]
    ensures var restored := RecordedPnl(s.history[..start]);
            RecordedPnl(history) == restored + MostRecorded(s.realizedPnl - restored, |nets|)
  {
    hide RecordedPnl, SumOf, Units, MostUnits, Round4;
    NoTrades(nets);
    others := MostUnitsReached(s.realizedPnl - RecordedPnl(s.history[..start]), |nets|);
    history := Recording(s.history, start, others);
    assert history[..start] == s.history[..start];
    RecordedUnits(s.(history := history), start, others);
  }

  lemma {:induction false} NoTrades(nets: seq<real>)
    ensures nets == [] ==> SumOf(nets) == 0.0
  {
  }

  /** A halt can be lifted: here the loss is exactly at the daily limit, and its
      record is rounded up to -10. */
  lemma RestartCanLiftHalt(cfg: Config, t: Tier)
    requires cfg.maxDailyLossPct == 0.10 && cfg.maxDrawdownPct == 0.20
    requires t.active && t.capital == 100.0004
    requires t.state == FRESH.(realizedPnl := -10.00004, totalTrades := 1, history := t.state.history)
    requires |t.state.history| == 1 && t.state.history[0].realizedPnl == Round4(-10.00004)
    ensures Kept(t.state) && Frozen(cfg, t)
    ensures !Frozen(cfg, t.(state := Load(Some(Save(t.state)))))
  {
    assert Round4(-10.00004) == -10.0;
    assert t.state.history[..0] == [];
    assert RecordedPnl(t.state.history) == RecordedPnl(t.state.history[..0]) + t.state.history[0].realizedPnl;
  }
}
