/**
 The live trading loop over its tiers (scripts/run_live_trading.py, 459-542, 912-1016, 1266-1528,
 1649-1708, 1756-1950). Everything the loop reads from outside is an input of the poll: bars, signals,
 fills, kill-switch reads, regime matches and paper-trading verdicts, each including its failure.
 */
module LiveTrading {
  import opened RealArithmetic
  import opened Wrappers
  import opened LiveState

  datatype Config = Config(
    maxConcurrent: int,
    reserveCap: real,
    maxSameDirection: int,
    maxDailyLossPct: real,
    maxDrawdownPct: real)

  /** A tier together with the stored row of its own session. */
  datatype Tier = Tier(
    symbol: string,
    capital: real,
    activationThreshold: real,
    active: bool,
    state: TierState,
    row: Option<SessionRow>)

  // ----- inputs of one poll ---------------------------------------------------------------

  /** A read of the kill switch. A database error is reported by its message, which blocks an exit
      too when it happens to contain the words "kill_switch". */
  datatype KillRead = KillOff | KillOn | DbError(mentionsKillSwitch: bool)

  datatype Fill = Fill(success: bool, price: real) {
    predicate Filled() {
      success && price > 0.0
    }
  }

  datatype Market = FetchRaises | TooFewBars | Bars(last: Bar)

  datatype Signal = SignalRaises | NoSignal | CloseSignal
                  | EnterSignal(direction: Direction, stopLoss: Option<real>, takeProfit: Option<real>)

  datatype TierInput = TierInput(
    market: Market,
    stopGuard: KillRead,
    stopFill: Fill,
    signal: Signal,
    regimeAllowsEntry: bool,
    signalGuard: KillRead,
    signalFill: Fill,
    now: string)

  /** `cleared`: the template is not degraded and is READY_FOR_LIVE, or the database could not be
      read, which the source lets pass. */
  datatype ActivationInput = ActivationInput(regimeMatches: bool, cleared: bool)

  datatype PollInput = RegimeRaises | PollInput(activation: int -> ActivationInput, tier: int -> TierInput)

  // ----- counting over the tiers ------------------------------------------------------------

  function Tally(tiers: seq<Tier>, p: Tier -> bool): nat {
    if tiers == [] then 0 else (if p(tiers[0]) then 1 else 0) + Tally(tiers[1..], p)
  }

  function IsActive(): Tier -> bool {
    (t: Tier) => t.active
  }

  function Holds(direction: Direction): Tier -> bool {
    (t: Tier) => t.active && t.state.inPosition && t.state.side == direction
  }

  /** The tier is not running, but its stored row holds an open position. */
  function StoredOpen(direction: Direction): Tier -> bool {
    (t: Tier) => !t.active && Load(t.row).inPosition && Load(t.row).side == direction
  }

  function Committed(tiers: seq<Tier>): real {
    if tiers == [] then 0.0 else (if tiers[0].active then tiers[0].capital else 0.0) + Committed(tiers[1..])
  }

  function ActiveEquity(tiers: seq<Tier>): real {
    if tiers == [] then 0.0
    else (if tiers[0].active then tiers[0].capital + tiers[0].state.realizedPnl else 0.0) + ActiveEquity(tiers[1..])
  }

  // ----- activation ---------------------------------------------------------------------------

  function CanActivate(cfg: Config, tiers: seq<Tier>, t: Tier): bool {
    Tally(tiers, IsActive()) < cfg.maxConcurrent && Committed(tiers) + t.capital <= cfg.reserveCap
  }

  function Activated(t: Tier): Tier {
    t.(active := true, state := Load(t.row))
  }

  /** The activation loop from tier i on; the portfolio equity was summed before it started. */
  function ActivateFrom(cfg: Config, tiers: seq<Tier>, i: nat, equity: real, inputs: int -> ActivationInput): seq<Tier>
    requires i <= |tiers|
    decreases |tiers| - i
  {
    if i == |tiers| then tiers else
    var t := tiers[i];
    var next :=
      if !t.active && inputs(i).regimeMatches && equity >= t.activationThreshold && inputs(i).cleared
         && CanActivate(cfg, tiers, t)
      then tiers[i := Activated(t)] else tiers;
    ActivateFrom(cfg, next, i + 1, equity, inputs)
  }

  /** Startup: tier 1 is loaded and, unless the promotion gate blocks it, active without the rails. */
  function Startup(tiers: seq<Tier>, blocked: bool): seq<Tier>
    requires tiers != []
  {
    tiers[0 := tiers[0].(active := !blocked, state := Load(tiers[0].row))]
  }

  // ----- one tier in one poll ------------------------------------------------------------------

  datatype Verdict = Approved | Rejected(killSwitch: bool)

  function LossHalted(cfg: Config, capital: real, realizedPnl: real, equity: real): bool
    requires capital != 0.0
  {
    realizedPnl <= -(capital * cfg.maxDailyLossPct) || (capital - equity) / capital >= cfg.maxDrawdownPct
  }

  function CheckRiskGuards(cfg: Config, s: TierState, capital: real, price: real, kill: KillRead): Verdict
    requires capital != 0.0
  {
    if kill.KillOn? then Rejected(true)
    else if kill.DbError? then Rejected(kill.mentionsKillSwitch)
    else if LossHalted(cfg, capital, s.realizedPnl, Equity(s, capital, Some(price))) then Rejected(false)
    else Approved
  }

  /** An exit goes ahead unless the rejection names the kill switch. */
  predicate ExitAllowed(v: Verdict) {
    v.Approved? || !v.killSwitch
  }

  const POSITION_SIZE_FRACTION := 0.25
  const BINANCE_MIN_NOTIONAL := 5.0

  /** None is the ZeroDivisionError of a zero price. */
  function CalculateQuantity(equity: real, price: real): Option<real> {
    var spend := equity * POSITION_SIZE_FRACTION;
    if spend < BINANCE_MIN_NOTIONAL then Some(0.0)
    else if price == 0.0 then None
    else Some((spend / price * 1000000.0).Floor as real / 1000000.0)
  }

  /** Change the state and save it to the tier's own row. */
  function Saved(t: Tier, s: TierState): Tier {
    t.(state := s, row := Some(Save(s)))
  }

  /** Step 1: stop-loss and take-profit, whatever the regime. */
  function AfterStops(cfg: Config, t: Tier, bar: Bar, input: TierInput): Tier
    requires t.capital != 0.0
  {
    var exit := CheckStops(t.state, bar);
    if exit.ExitAt?
       && ExitAllowed(CheckRiskGuards(cfg, t.state, t.capital, bar.close, input.stopGuard))
       && input.stopFill.Filled()
    then Saved(t, Closed(t.state, input.stopFill.price, exit.reason, t.symbol))
    else t
  }

  /** What processing leaves behind, and whether an exception then ends the poll. */
  datatype Processed = Processed(tier: Tier, raised: bool)

  /** Step 3: a close signal on an open position. */
  function AfterCloseSignal(cfg: Config, t: Tier, bar: Bar, input: TierInput): Tier
    requires t.capital != 0.0
  {
    if t.state.inPosition
       && ExitAllowed(CheckRiskGuards(cfg, t.state, t.capital, bar.close, input.signalGuard))
       && input.signalFill.Filled()
    then Saved(t, Closed(t.state, input.signalFill.price, "signal_close", t.symbol))
    else t
  }

  /** Step 4: an entry signal on a flat tier, with `openSame` positions already in its direction. */
  function AfterEntrySignal(cfg: Config, t: Tier, openSame: nat, bar: Bar, input: TierInput): Processed
    requires t.capital != 0.0 && input.signal.EnterSignal?
  {
    var signal := input.signal;
    if t.state.inPosition || signal.direction == NoSide || !input.regimeAllowsEntry then Processed(t, false)
    else if openSame >= cfg.maxSameDirection then Processed(t, false)
    else if CheckRiskGuards(cfg, t.state, t.capital, bar.close, input.signalGuard) != Approved then Processed(t, false)
    else
      var quantity := CalculateQuantity(Equity(t.state, t.capital, Some(bar.close)), bar.close);
      if quantity.None? then Processed(t, true)
      else if quantity.value > 0.0 && input.signalFill.Filled() then
        Processed(Saved(t, Opened(t.state, signal.direction, quantity.value, input.signalFill.price, input.now,
                                  signal.stopLoss, signal.takeProfit)), false)
      else Processed(t, false)
  }

  function ProcessTier(cfg: Config, tiers: seq<Tier>, i: nat, input: TierInput): Processed
    requires i < |tiers| && tiers[i].capital != 0.0
  {
    match input.market
    case FetchRaises => Processed(tiers[i], true)
    case TooFewBars => Processed(tiers[i], false)
    case Bars(bar) =>
      var t := AfterStops(cfg, tiers[i], bar, input);
      match input.signal
      case SignalRaises => Processed(t, true)
      case NoSignal => Processed(t, false)
      case CloseSignal => Processed(AfterCloseSignal(cfg, t, bar, input), false)
      case EnterSignal(direction, _, _) =>
        AfterEntrySignal(cfg, t, Tally(tiers[i := t], Holds(direction)), bar, input)
  }

  // ----- polls -----------------------------------------------------------------------------------

  /** Process the active tiers from i on, until one raises. */
  function ProcessFrom(cfg: Config, tiers: seq<Tier>, i: nat, inputs: int -> TierInput): seq<Tier>
    requires i <= |tiers| && Funded(tiers)
    decreases |tiers| - i
  {
    if i == |tiers| then tiers
    else if !tiers[i].active then ProcessFrom(cfg, tiers, i + 1, inputs)
    else
      var p := ProcessTier(cfg, tiers, i, inputs(i));
      var next := tiers[i := p.tier];
      if p.raised then next else ProcessFrom(cfg, next, i + 1, inputs)
  }

  ghost predicate Funded(tiers: seq<Tier>) {
    forall i :: 0 <= i < |tiers| ==> tiers[i].capital > 0.0
  }

  function Poll(cfg: Config, tiers: seq<Tier>, input: PollInput): seq<Tier>
    requires Funded(tiers)
  {
    if input.RegimeRaises? then tiers
    else
      var activated := ActivateFrom(cfg, tiers, 0, ActiveEquity(tiers), input.activation);
      ActivationKeeps(cfg, tiers, 0, ActiveEquity(tiers), input.activation);
      ProcessFrom(cfg, activated, 0, input.tier)
  }

  /** The tiers after a list of polls. */
  function RunPolls(cfg: Config, tiers: seq<Tier>, polls: seq<PollInput>): (after: seq<Tier>)
    requires Funded(tiers)
    ensures Funded(after) && |after| == |tiers|
  {
    if polls == [] then tiers else
    var before := RunPolls(cfg, tiers, polls[..|polls| - 1]);
    PollKeeps(cfg, before, polls[|polls| - 1]);
    Poll(cfg, before, polls[|polls| - 1])
  }

  /** Nothing changes in a tier but its state, its row and, once, its activation. */
  ghost predicate SameTier(before: Tier, after: Tier) {
    && after.symbol == before.symbol && after.capital == before.capital
    && after.activationThreshold == before.activationThreshold
    && (before.active ==> after.active)
  }

  ghost predicate SameTiers(before: seq<Tier>, after: seq<Tier>) {
    |after| == |before| && forall j :: 0 <= j < |before| ==> SameTier(before[j], after[j])
  }

  lemma {:induction false} ActivationKeeps(cfg: Config, tiers: seq<Tier>, i: nat, equity: real,
                                           inputs: int -> ActivationInput)
    requires i <= |tiers|
    ensures var after := ActivateFrom(cfg, tiers, i, equity, inputs);
            && SameTiers(tiers, after)
            && forall j :: 0 <= j < |tiers|
                 ==> after[j] == tiers[j] || (!tiers[j].active && after[j] == Activated(tiers[j]))
    decreases |tiers| - i
  {
    hide CanActivate, Load;
    if i < |tiers| {
      ActivationKeeps(cfg, tiers, i + 1, equity, inputs);
      ActivationKeeps(cfg, tiers[i := Activated(tiers[i])], i + 1, equity, inputs);
    }
  }

  lemma ProcessTierKeeps(cfg: Config, tiers: seq<Tier>, i: nat, input: TierInput)
    requires i < |tiers| && tiers[i].capital != 0.0
    ensures SameTier(tiers[i], ProcessTier(cfg, tiers, i, input).tier)
    ensures tiers[i].active == ProcessTier(cfg, tiers, i, input).tier.active
  {
    hide CheckStops, CheckRiskGuards, Closed, Save, CalculateQuantity, Tally, Equity;
  }

  lemma {:induction false} ProcessingKeeps(cfg: Config, tiers: seq<Tier>, i: nat, inputs: int -> TierInput)
    requires i <= |tiers| && Funded(tiers)
    ensures var after := ProcessFrom(cfg, tiers, i, inputs);
            && SameTiers(tiers, after)
            && forall j :: 0 <= j < |tiers| ==> after[j].active == tiers[j].active
    decreases |tiers| - i
  {
    hide ProcessTier;
    if i < |tiers| {
      if !tiers[i].active {
        ProcessingKeeps(cfg, tiers, i + 1, inputs);
      } else {
        ProcessTierKeeps(cfg, tiers, i, inputs(i));
        ProcessingKeeps(cfg, tiers[i := ProcessTier(cfg, tiers, i, inputs(i)).tier], i + 1, inputs);
      }
    }
  }

  lemma PollKeeps(cfg: Config, tiers: seq<Tier>, input: PollInput)
    requires Funded(tiers)
    ensures SameTiers(tiers, Poll(cfg, tiers, input)) && Funded(Poll(cfg, tiers, input))
  {
    hide ProcessFrom, ActivateFrom;
    if !input.RegimeRaises? {
      ActivationKeeps(cfg, tiers, 0, ActiveEquity(tiers), input.activation);
      ProcessingKeeps(cfg, ActivateFrom(cfg, tiers, 0, ActiveEquity(tiers), input.activation), 0, input.tier);
    }
  }

  // ----- portfolio rails ---------------------------------------------------------------------------

  lemma {:induction false} TallyUpdate(tiers: seq<Tier>, i: nat, t: Tier, p: Tier -> bool)
    requires i < |tiers|
    ensures Tally(tiers[i := t], p) == Tally(tiers, p) - (if p(tiers[i]) then 1 else 0) + (if p(t) then 1 else 0)
  {
    if i == 0 {
      assert tiers[i := t][1..] == tiers[1..];
    } else {
      assert tiers[i := t][1..] == tiers[1..][i - 1 := t];
      TallyUpdate(tiers[1..], i - 1, t, p);
    }
  }

  lemma {:induction false} CommittedUpdate(tiers: seq<Tier>, i: nat, t: Tier)
    requires i < |tiers|
    ensures Committed(tiers[i := t]) == Committed(tiers)
              - (if tiers[i].active then tiers[i].capital else 0.0) + (if t.active then t.capital else 0.0)
  {
    if i == 0 {
      assert tiers[i := t][1..] == tiers[1..];
    } else {
      assert tiers[i := t][1..] == tiers[1..][i - 1 := t];
      CommittedUpdate(tiers[1..], i - 1, t);
    }
  }

  /** The rails hold, or were already exceeded by as much. */
  ghost predicate RailsFrom(cfg: Config, before: seq<Tier>, after: seq<Tier>) {
    && Tally(after, IsActive()) <= MaxOfTwo(Tally(before, IsActive()), cfg.maxConcurrent)
    && Committed(after) <= LargerReal(Committed(before), cfg.reserveCap)
  }

  lemma {:induction false} EarlierTiersSettled(cfg: Config, tiers: seq<Tier>, i: nat, equity: real,
                                               inputs: int -> ActivationInput, j: nat)
    requires j < i <= |tiers|
    ensures |ActivateFrom(cfg, tiers, i, equity, inputs)| == |tiers|
    ensures ActivateFrom(cfg, tiers, i, equity, inputs)[j] == tiers[j]
    decreases |tiers| - i
  {
    hide CanActivate, Activated;
    if i < |tiers| {
      var t := tiers[i];
      var next := if !t.active && inputs(i).regimeMatches && equity >= t.activationThreshold && inputs(i).cleared
                     && CanActivate(cfg, tiers, t) then tiers[i := Activated(t)] else tiers;
      EarlierTiersSettled(cfg, next, i + 1, equity, inputs, j);
    }
  }

  /** When its turn comes, an inactive tier is activated exactly if its regime matches, the portfolio
      equity reached its threshold, its paper record cleared it, and both rails leave it room. */
  lemma {:induction false} ActivatedExactly(cfg: Config, tiers: seq<Tier>, i: nat, equity: real,
                                            inputs: int -> ActivationInput)
    requires i < |tiers|
    ensures |ActivateFrom(cfg, tiers, i, equity, inputs)| == |tiers|
    ensures ActivateFrom(cfg, tiers, i, equity, inputs)[i].active
       <==> tiers[i].active
            || (&& inputs(i).regimeMatches && inputs(i).cleared && tiers[i].activationThreshold <= equity
                && Tally(tiers, IsActive()) + 1 <= cfg.maxConcurrent
                     && Committed(tiers) + tiers[i].capital <= cfg.reserveCap)
    ensures ActivateFrom(cfg, tiers, i, equity, inputs)[i].active && !tiers[i].active
        ==> ActivateFrom(cfg, tiers, i, equity, inputs)[i] == Activated(tiers[i])
  {
    hide Tally, Committed;
    var t := tiers[i];
    var next := if !t.active && inputs(i).regimeMatches && equity >= t.activationThreshold && inputs(i).cleared
                   && CanActivate(cfg, tiers, t) then tiers[i := Activated(t)] else tiers;
    EarlierTiersSettled(cfg, next, i + 1, equity, inputs, i);
  }

  lemma {:induction false} ActivationRespectsRails(cfg: Config, tiers: seq<Tier>, i: nat, equity: real,
                                                   inputs: int -> ActivationInput)
    requires i <= |tiers|
    ensures RailsFrom(cfg, tiers, ActivateFrom(cfg, tiers, i, equity, inputs))
    decreases |tiers| - i
  {
    hide Load;
    if i < |tiers| {
      ActivationRespectsRails(cfg, tiers, i + 1, equity, inputs);
      if !tiers[i].active && CanActivate(cfg, tiers, tiers[i]) {
        var next := tiers[i := Activated(tiers[i])];
        TallyUpdate(tiers, i, Activated(tiers[i]), IsActive());
        CommittedUpdate(tiers, i, Activated(tiers[i]));
        hide Tally, Committed;
        ActivationRespectsRails(cfg, next, i + 1, equity, inputs);
      }
    }
  }

  lemma {:induction false} ProcessingKeepsRails(cfg: Config, tiers: seq<Tier>, i: nat, inputs: int -> TierInput)
    requires i <= |tiers| && Funded(tiers)
    ensures var after := ProcessFrom(cfg, tiers, i, inputs);
            Tally(after, IsActive()) == Tally(tiers, IsActive()) && Committed(after) == Committed(tiers)
    decreases |tiers| - i
  {
    hide ProcessTier, Tally, Committed;
    if i < |tiers| {
      if !tiers[i].active {
        ProcessingKeepsRails(cfg, tiers, i + 1, inputs);
      } else {
        var t := ProcessTier(cfg, tiers, i, inputs(i)).tier;
        ProcessTierKeeps(cfg, tiers, i, inputs(i));
        TallyUpdate(tiers, i, t, IsActive());
        CommittedUpdate(tiers, i, t);
        ProcessingKeepsRails(cfg, tiers[i := t], i + 1, inputs);
      }
    }
  }

  lemma {:induction false} RunRespectsRails(cfg: Config, tiers: seq<Tier>, polls: seq<PollInput>)
    requires Funded(tiers)
    ensures RailsFrom(cfg, tiers, RunPolls(cfg, tiers, polls))
  {
    hide ProcessFrom, ActivateFrom, Tally, Committed;
    if polls != [] {
      var before, last := RunPolls(cfg, tiers, polls[..|polls| - 1]), polls[|polls| - 1];
      RunRespectsRails(cfg, tiers, polls[..|polls| - 1]);
      if last.PollInput? {
        ActivationRespectsRails(cfg, before, 0, ActiveEquity(before), last.activation);
        ActivationKeeps(cfg, before, 0, ActiveEquity(before), last.activation);
        ProcessingKeepsRails(cfg, ActivateFrom(cfg, before, 0, ActiveEquity(before), last.activation), 0, last.tier);
      }
    }
  }

  ghost predicate AllInactive(tiers: seq<Tier>) {
    forall i :: 0 <= i < |tiers| ==> !tiers[i].active
  }

  lemma {:induction false} NoneActive(tiers: seq<Tier>, p: Tier -> bool)
    requires forall i :: 0 <= i < |tiers| ==> !p(tiers[i])
    ensures Tally(tiers, p) == 0
  {
    if tiers != [] { NoneActive(tiers[1..], p); }
  }

  lemma {:induction false} NothingCommitted(tiers: seq<Tier>)
    requires AllInactive(tiers)
    ensures Committed(tiers) == 0.0 && Tally(tiers, IsActive()) == 0
  {
    if tiers != [] { NothingCommitted(tiers[1..]); }
  }

  lemma StartupExposure(tiers: seq<Tier>, blocked: bool)
    requires tiers != [] && AllInactive(tiers)
    ensures Committed(Startup(tiers, blocked)) == if blocked then 0.0 else tiers[0].capital
    ensures Tally(Startup(tiers, blocked), IsActive()) == if blocked then 0 else 1
  {
    hide Load;
    NothingCommitted(tiers);
    TallyUpdate(tiers, 0, Startup(tiers, blocked)[0], IsActive());
    CommittedUpdate(tiers, 0, Startup(tiers, blocked)[0]);
  }

  /** In every state a process can reach, the active tiers number at most `maxConcurrent` and their
      capital is at most the reserve cap. Tier 1 starts without the check, so this holds of every
      run exactly when tier 1 is blocked at startup or fits on its own. */
  lemma {:induction false} RailsHoldExactly(cfg: Config, tiers: seq<Tier>, blocked: bool)
    requires tiers != [] && AllInactive(tiers) && Funded(tiers)
    requires 0 <= cfg.maxConcurrent && 0.0 <= cfg.reserveCap
    ensures Funded(Startup(tiers, blocked))
    ensures (forall polls: seq<PollInput> ::
               && Tally(RunPolls(cfg, Startup(tiers, blocked), polls), IsActive()) <= cfg.maxConcurrent
               && Committed(RunPolls(cfg, Startup(tiers, blocked), polls)) <= cfg.reserveCap)
       <==> blocked || (1 <= cfg.maxConcurrent && tiers[0].capital <= cfg.reserveCap)
  {
    hide Tally, Committed, Load;
    var start := Startup(tiers, blocked);
    StartupExposure(tiers, blocked);
    assert RunPolls(cfg, start, []) == start;
    forall polls: seq<PollInput> ensures RailsFrom(cfg, start, RunPolls(cfg, start, polls)) {
      RunRespectsRails(cfg, start, polls);
    }
  }

  // ----- the decorrelation cap ----------------------------------------------------------------------

  /** Positions in a direction, open or waiting in the row of a tier that is not running. */
  function Exposure(tiers: seq<Tier>, direction: Direction): nat {
    Tally(tiers, Holds(direction)) + Tally(tiers, StoredOpen(direction))
  }

  lemma {:induction false} ActivationMovesExposure(cfg: Config, tiers: seq<Tier>, i: nat, equity: real,
                                                   inputs: int -> ActivationInput, direction: Direction)
    requires i <= |tiers|
    ensures var after := ActivateFrom(cfg, tiers, i, equity, inputs);
            && Exposure(after, direction) == Exposure(tiers, direction)
            && Tally(after, StoredOpen(direction)) <= Tally(tiers, StoredOpen(direction))
    decreases |tiers| - i
  {
    hide CanActivate, Tally, Load;
    if i < |tiers| {
      ActivationMovesExposure(cfg, tiers, i + 1, equity, inputs, direction);
      if !tiers[i].active {
        TallyUpdate(tiers, i, Activated(tiers[i]), Holds(direction));
        TallyUpdate(tiers, i, Activated(tiers[i]), StoredOpen(direction));
        ActivationMovesExposure(cfg, tiers[i := Activated(tiers[i])], i + 1, equity, inputs, direction);
      }
    }
  }

  /** Processing one tier opens a position only below the cap, and opens at most its own. */
  lemma {:induction false} ProcessTierExposure(cfg: Config, tiers: seq<Tier>, i: nat, input: TierInput,
                                               direction: Direction)
    requires i < |tiers| && tiers[i].capital != 0.0 && tiers[i].active
    ensures var t := ProcessTier(cfg, tiers, i, input).tier;
            Holds(direction)(t) && !Holds(direction)(tiers[i])
            ==> Tally(tiers, Holds(direction)) < cfg.maxSameDirection
    ensures ProcessTier(cfg, tiers, i, input).tier.active
  {
    hide AfterStops, AfterCloseSignal, AfterEntrySignal, Tally;
    if input.market.Bars? {
      var bar := input.market.last;
      var t := AfterStops(cfg, tiers[i], bar, input);
      ExitsOnlyClose(cfg, tiers[i], bar, input, direction);
      ExitsOnlyClose(cfg, t, bar, input, direction);
      TallyUpdate(tiers, i, t, Holds(direction));
      if input.signal.EnterSignal? {
        EntryBelowCap(cfg, t, Tally(tiers[i := t], Holds(input.signal.direction)), bar, input, direction);
      }
    }
  }

  lemma ExitsOnlyClose(cfg: Config, t: Tier, bar: Bar, input: TierInput, direction: Direction)
    requires t.capital != 0.0
    ensures var stopped := AfterStops(cfg, t, bar, input);
            (Holds(direction)(stopped) ==> Holds(direction)(t)) && stopped.active == t.active
              && stopped.capital == t.capital
    ensures var closed := AfterCloseSignal(cfg, t, bar, input);
            (Holds(direction)(closed) ==> Holds(direction)(t)) && closed.active == t.active
  {
    hide CheckStops, CheckRiskGuards, Equity, Save, NetPnl, RecordOf;
  }

  lemma EntryBelowCap(cfg: Config, t: Tier, openSame: nat, bar: Bar, input: TierInput, direction: Direction)
    requires t.capital != 0.0 && input.signal.EnterSignal?
    ensures var after := AfterEntrySignal(cfg, t, openSame, bar, input).tier;
            && after.active == t.active
            && (Holds(direction)(after) && !Holds(direction)(t)
                ==> input.signal.direction == direction && openSame < cfg.maxSameDirection)
  {
    hide CheckRiskGuards, Equity, Save, CalculateQuantity;
  }

  lemma {:induction false} ProcessingRespectsCap(cfg: Config, tiers: seq<Tier>, i: nat, inputs: int -> TierInput,
                                                 direction: Direction)
    requires i <= |tiers| && Funded(tiers)
    ensures var after := ProcessFrom(cfg, tiers, i, inputs);
            && Tally(after, Holds(direction)) <= MaxOfTwo(Tally(tiers, Holds(direction)), cfg.maxSameDirection)
            && Tally(after, StoredOpen(direction)) == Tally(tiers, StoredOpen(direction))
    decreases |tiers| - i
  {
    hide ProcessTier, Tally, Load;
    if i < |tiers| {
      if !tiers[i].active {
        ProcessingRespectsCap(cfg, tiers, i + 1, inputs, direction);
      } else {
        var t := ProcessTier(cfg, tiers, i, inputs(i)).tier;
        ProcessTierKeeps(cfg, tiers, i, inputs(i));
        ProcessTierExposure(cfg, tiers, i, inputs(i), direction);
        TallyUpdate(tiers, i, t, Holds(direction));
        TallyUpdate(tiers, i, t, StoredOpen(direction));
        ProcessingRespectsCap(cfg, tiers[i := t], i + 1, inputs, direction);
      }
    }
  }

  /** In every reachable state the open positions in a direction number at most the cap plus the
      positions that were already stored when the process started; with none stored, the cap. */
  lemma {:induction false} SameDirectionCapped(cfg: Config, tiers: seq<Tier>, polls: seq<PollInput>,
                                               direction: Direction)
    requires Funded(tiers)
    ensures var after := RunPolls(cfg, tiers, polls);
            var stored := Tally(tiers, StoredOpen(direction));
            && Tally(after, StoredOpen(direction)) <= stored
            && Exposure(after, direction)
                 <= MaxOfTwo(Exposure(tiers, direction), MaxOfTwo(cfg.maxSameDirection, 0) + stored)
  {
    hide ProcessFrom, ActivateFrom, Tally;
    if polls != [] {
      var before, last := RunPolls(cfg, tiers, polls[..|polls| - 1]), polls[|polls| - 1];
      SameDirectionCapped(cfg, tiers, polls[..|polls| - 1], direction);
      if last.PollInput? {
        ActivationMovesExposure(cfg, before, 0, ActiveEquity(before), last.activation, direction);
        ActivationKeeps(cfg, before, 0, ActiveEquity(before), last.activation);
        ProcessingRespectsCap(cfg, ActivateFrom(cfg, before, 0, ActiveEquity(before), last.activation), 0, last.tier,
          direction);
      }
    }
  }

  /** From a start-up with no stored position in a direction, the cap is never exceeded. */
  lemma {:induction false} NoRestoredPositionsNoExcess(cfg: Config, tiers: seq<Tier>, blocked: bool,
                                                       polls: seq<PollInput>,
                                                      direction: Direction)
    requires tiers != [] && AllInactive(tiers) && Funded(tiers)
    requires Tally(tiers, StoredOpen(direction)) == 0
    ensures Funded(Startup(tiers, blocked))
    ensures Tally(RunPolls(cfg, Startup(tiers, blocked), polls), Holds(direction)) <= MaxOfTwo(cfg.maxSameDirection, 0)
  {
    hide RunPolls, Load;
    var start := Startup(tiers, blocked);
    TallyUpdate(tiers, 0, start[0], Holds(direction));
    TallyUpdate(tiers, 0, start[0], StoredOpen(direction));
    NoneActive(tiers, Holds(direction));
    SameDirectionCapped(cfg, start, polls, direction);
  }

  // ----- a crash after any poll ---------------------------------------------------------------------

  /** The stored row is a sound set of books, and for a running tier it restores exactly what is
      in memory, up to the rounding of the running total. */
  ghost predicate CrashSafe(t: Tier) {
    && Kept(Load(t.row))
    && (t.active ==> Kept(t.state) && Load(t.row) == t.state.(realizedPnl := RecordedPnl(t.state.history)))
  }

  ghost predicate AllCrashSafe(tiers: seq<Tier>) {
    forall i :: 0 <= i < |tiers| ==> CrashSafe(tiers[i])
  }

  lemma LoadedIsSafe(t: Tier)
    requires Kept(Load(t.row))
    ensures CrashSafe(Activated(t)) && CrashSafe(t.(active := false, state := Load(t.row)))
  {
  }

  lemma SavedIsSafe(t: Tier, s: TierState)
    requires Kept(s)
    ensures CrashSafe(Saved(t, s))
  {
    RestartRestores(s);
  }

  lemma OpenKeeps(s: TierState, side: Direction, quantity: real, price: real, time: string, stop: Option<real>,
                  take: Option<real>)
    requires Kept(s)
    ensures Kept(Opened(s, side, quantity, price, time, stop, take))
  {
    hide RecordedPnl;
  }

  lemma StopsStaySafe(cfg: Config, t: Tier, bar: Bar, input: TierInput)
    requires t.capital != 0.0 && t.active && CrashSafe(t)
    ensures CrashSafe(AfterStops(cfg, t, bar, input)) && CrashSafe(AfterCloseSignal(cfg, t, bar, input))
    ensures AfterStops(cfg, t, bar, input).active && AfterStops(cfg, t, bar, input).capital == t.capital
  {
    hide CheckStops, CheckRiskGuards, Equity, Save, Load, RecordedPnl, Kept, Closed;
    if CheckStops(t.state, bar).ExitAt? {
      CloseKeeps(t.state, input.stopFill.price, CheckStops(t.state, bar).reason, t.symbol);
      SavedIsSafe(t, Closed(t.state, input.stopFill.price, CheckStops(t.state, bar).reason, t.symbol));
    }
    CloseKeeps(t.state, input.signalFill.price, "signal_close", t.symbol);
    SavedIsSafe(t, Closed(t.state, input.signalFill.price, "signal_close", t.symbol));
  }

  lemma EntryStaysSafe(cfg: Config, t: Tier, openSame: nat, bar: Bar, input: TierInput)
    requires t.capital != 0.0 && t.active && CrashSafe(t) && input.signal.EnterSignal?
    ensures CrashSafe(AfterEntrySignal(cfg, t, openSame, bar, input).tier)
  {
    hide CheckRiskGuards, Equity, Save, Load, RecordedPnl, Kept, Opened, CalculateQuantity;
    var quantity := CalculateQuantity(Equity(t.state, t.capital, Some(bar.close)), bar.close);
    if quantity.Some? {
      var signal := input.signal;
      OpenKeeps(t.state, signal.direction, quantity.value, input.signalFill.price, input.now, signal.stopLoss,
        signal.takeProfit);
      SavedIsSafe(t, Opened(t.state, signal.direction, quantity.value, input.signalFill.price, input.now,
                            signal.stopLoss, signal.takeProfit));
    }
  }

  lemma ProcessTierSafe(cfg: Config, tiers: seq<Tier>, i: nat, input: TierInput)
    requires i < |tiers| && tiers[i].capital != 0.0 && tiers[i].active && CrashSafe(tiers[i])
    ensures CrashSafe(ProcessTier(cfg, tiers, i, input).tier)
  {
    hide AfterStops, AfterCloseSignal, AfterEntrySignal, Tally, CrashSafe;
    if input.market.Bars? {
      var bar := input.market.last;
      var t := AfterStops(cfg, tiers[i], bar, input);
      StopsStaySafe(cfg, tiers[i], bar, input);
      StopsStaySafe(cfg, t, bar, input);
      if input.signal.EnterSignal? {
        EntryStaysSafe(cfg, t, Tally(tiers[i := t], Holds(input.signal.direction)), bar, input);
      }
    }
  }

  lemma {:induction false} ProcessingStaysSafe(cfg: Config, tiers: seq<Tier>, i: nat, inputs: int -> TierInput)
    requires i <= |tiers| && Funded(tiers) && AllCrashSafe(tiers)
    ensures AllCrashSafe(ProcessFrom(cfg, tiers, i, inputs))
    decreases |tiers| - i
  {
    hide ProcessTier, CrashSafe;
    if i < |tiers| {
      if !tiers[i].active {
        ProcessingStaysSafe(cfg, tiers, i + 1, inputs);
      } else {
        ProcessTierKeeps(cfg, tiers, i, inputs(i));
        ProcessTierSafe(cfg, tiers, i, inputs(i));
        ProcessingStaysSafe(cfg, tiers[i := ProcessTier(cfg, tiers, i, inputs(i)).tier], i + 1, inputs);
      }
    }
  }

  lemma {:induction false} ActivationStaysSafe(cfg: Config, tiers: seq<Tier>, equity: real,
                                               inputs: int -> ActivationInput)
    requires AllCrashSafe(tiers)
    ensures AllCrashSafe(ActivateFrom(cfg, tiers, 0, equity, inputs))
  {
    hide ActivateFrom, CrashSafe, Activated;
    ActivationKeeps(cfg, tiers, 0, equity, inputs);
    var after := ActivateFrom(cfg, tiers, 0, equity, inputs);
    forall i | 0 <= i < |tiers| ensures CrashSafe(after[i]) {
      SafeRowIsKept(tiers[i]);
      LoadedIsSafe(tiers[i]);
    }
  }

  lemma SafeRowIsKept(t: Tier)
    requires CrashSafe(t)
    ensures Kept(Load(t.row))
  {
  }

  /** After any list of polls, whatever the bars, signals, fills and exceptions, a restart finds in
      the database the position, stops, history and trade count that are in memory. */
  lemma {:induction false} RunIsCrashSafe(cfg: Config, tiers: seq<Tier>, polls: seq<PollInput>)
    requires Funded(tiers) && AllCrashSafe(tiers)
    ensures AllCrashSafe(RunPolls(cfg, tiers, polls))
  {
    hide ProcessFrom, ActivateFrom, AllCrashSafe;
    if polls != [] {
      var before, last := RunPolls(cfg, tiers, polls[..|polls| - 1]), polls[|polls| - 1];
      RunIsCrashSafe(cfg, tiers, polls[..|polls| - 1]);
      if last.PollInput? {
        ActivationStaysSafe(cfg, before, ActiveEquity(before), last.activation);
        ActivationKeeps(cfg, before, 0, ActiveEquity(before), last.activation);
        ProcessingStaysSafe(cfg, ActivateFrom(cfg, before, 0, ActiveEquity(before), last.activation), 0, last.tier);
      }
    }
  }

  /** A process started on sound rows stays crash-safe for ever. */
  lemma {:induction false} StartupIsCrashSafe(cfg: Config, tiers: seq<Tier>, blocked: bool, polls: seq<PollInput>)
    requires tiers != [] && AllInactive(tiers) && Funded(tiers)
    requires forall i :: 0 <= i < |tiers| ==> Kept(Load(tiers[i].row))
    ensures Funded(Startup(tiers, blocked))
    ensures AllCrashSafe(RunPolls(cfg, Startup(tiers, blocked), polls))
  {
    hide RunPolls, Load, Kept;
    LoadedIsSafe(tiers[0]);
    assert Startup(tiers, blocked)[0] == if blocked then tiers[0].(active := false, state := Load(tiers[0].row))
      else Activated(tiers[0]);
    RunIsCrashSafe(cfg, Startup(tiers, blocked), polls);
  }

  // ----- the halt is absorbing -------------------------------------------------------------------------

  /** A flat tier with this running total is past a loss limit, or too small to place the minimum order. */
  predicate FrozenAt(cfg: Config, capital: real, realizedPnl: real)
    requires capital != 0.0
  {
    || LossHalted(cfg, capital, realizedPnl, capital + realizedPnl)
    || (capital + realizedPnl) * POSITION_SIZE_FRACTION < BINANCE_MIN_NOTIONAL
  }

  predicate Frozen(cfg: Config, t: Tier)
    requires t.capital != 0.0
  {
    t.active && !t.state.inPosition && FrozenAt(cfg, t.capital, t.state.realizedPnl)
  }

  lemma FrozenTierIgnoresPoll(cfg: Config, tiers: seq<Tier>, i: nat, input: TierInput)
    requires i < |tiers| && tiers[i].capital != 0.0 && Frozen(cfg, tiers[i])
    ensures ProcessTier(cfg, tiers, i, input).tier == tiers[i]
  {
    hide Tally, LossHalted;
  }

  lemma {:induction false} FrozenThroughProcessing(cfg: Config, tiers: seq<Tier>, k: nat, inputs: int -> TierInput,
                                                   i: nat)
    requires k <= |tiers| && Funded(tiers) && i < |tiers| && Frozen(cfg, tiers[i])
    ensures |ProcessFrom(cfg, tiers, k, inputs)| == |tiers|
    ensures ProcessFrom(cfg, tiers, k, inputs)[i] == tiers[i]
    decreases |tiers| - k
  {
    hide ProcessTier, Frozen;
    if k < |tiers| {
      if !tiers[k].active {
        FrozenThroughProcessing(cfg, tiers, k + 1, inputs, i);
      } else {
        ProcessTierKeeps(cfg, tiers, k, inputs(k));
        if k == i { FrozenTierIgnoresPoll(cfg, tiers, i, inputs(i)); }
        FrozenThroughProcessing(cfg, tiers[k := ProcessTier(cfg, tiers, k, inputs(k)).tier], k + 1, inputs, i);
      }
    }
  }

  /** Once a tier is flat and halted, no later poll of the process changes its state or its row,
      whatever the bars, signals, fills and kill-switch readings. */
  lemma {:induction false} HaltIsAbsorbing(cfg: Config, tiers: seq<Tier>, polls: seq<PollInput>, i: nat)
    requires Funded(tiers) && i < |tiers| && Frozen(cfg, tiers[i])
    ensures RunPolls(cfg, tiers, polls)[i] == tiers[i]
  {
    hide ProcessFrom, ActivateFrom, LossHalted;
    if polls != [] {
      var before, last := RunPolls(cfg, tiers, polls[..|polls| - 1]), polls[|polls| - 1];
      HaltIsAbsorbing(cfg, tiers, polls[..|polls| - 1], i);
      if last.PollInput? {
        ActivationKeeps(cfg, before, 0, ActiveEquity(before), last.activation);
        FrozenThroughProcessing(cfg, ActivateFrom(cfg, before, 0, ActiveEquity(before), last.activation), 0, last.tier,
          i);
      }
    }
  }

  /** The characterisation is exact: a running, flat tier has some input on which it opens a
      position if and only if it is not frozen and the decorrelation cap leaves room. */
  lemma {:induction false} FlatTierCanOpenIff(cfg: Config, tiers: seq<Tier>, i: nat)
    requires i < |tiers| && tiers[i].capital > 0.0 && tiers[i].active && !tiers[i].state.inPosition
    ensures (exists input :: ProcessTier(cfg, tiers, i, input).tier.state.inPosition)
       <==> && !Frozen(cfg, tiers[i])
            && (Tally(tiers, Holds(LongSide)) < cfg.maxSameDirection
                || Tally(tiers, Holds(ShortSide)) < cfg.maxSameDirection)
  {
    hide Tally;
    forall input | ProcessTier(cfg, tiers, i, input).tier.state.inPosition
      ensures !Frozen(cfg, tiers[i])
      ensures Tally(tiers, Holds(LongSide)) < cfg.maxSameDirection
          || Tally(tiers, Holds(ShortSide)) < cfg.maxSameDirection
    {
      OpeningNeedsRoom(cfg, tiers, i, input);
    }
    if !Frozen(cfg, tiers[i]) {
      if Tally(tiers, Holds(LongSide)) < cfg.maxSameDirection {
        RoomLetsOpen(cfg, tiers, i, LongSide);
      } else if Tally(tiers, Holds(ShortSide)) < cfg.maxSameDirection {
        RoomLetsOpen(cfg, tiers, i, ShortSide);
      }
    }
  }

  lemma {:induction false} OpeningNeedsRoom(cfg: Config, tiers: seq<Tier>, i: nat, input: TierInput)
    requires i < |tiers| && tiers[i].capital > 0.0 && tiers[i].active && !tiers[i].state.inPosition
    requires ProcessTier(cfg, tiers, i, input).tier.state.inPosition
    ensures !Frozen(cfg, tiers[i])
    ensures input.signal.EnterSignal? && input.signal.direction != NoSide
    ensures Tally(tiers, Holds(input.signal.direction)) < cfg.maxSameDirection
  {
    hide Tally, LossHalted;
    if Frozen(cfg, tiers[i]) {
      FrozenTierIgnoresPoll(cfg, tiers, i, input);
    }
    assert tiers[i := tiers[i]] == tiers;
  }

  /** An entry signal at price 1 with every outside condition favourable. */
  function FavourableInput(direction: Direction): TierInput {
    TierInput(Bars(Bar(1.0, 1.0, 1.0)), KillOff, Fill(false, 0.0), EnterSignal(direction, None, None), true, KillOff,
      Fill(true, 1.0), "")
  }

  lemma {:induction false} RoomLetsOpen(cfg: Config, tiers: seq<Tier>, i: nat, direction: Direction)
    requires i < |tiers| && tiers[i].capital > 0.0 && tiers[i].active && !tiers[i].state.inPosition
    requires !Frozen(cfg, tiers[i]) && direction != NoSide && Tally(tiers, Holds(direction)) < cfg.maxSameDirection
    ensures ProcessTier(cfg, tiers, i, FavourableInput(direction)).tier.state.inPosition
  {
    hide LossHalted, Equity, CalculateQuantity, Save, Closed, Tally, FrozenAt;
    var t, input := tiers[i], FavourableInput(direction);
    EntryOpens(cfg, t, Tally(tiers, Holds(direction)), direction);
    ProcessEntry(cfg, tiers, i, Bar(1.0, 1.0, 1.0), input);
    hide Tally, AfterStops, AfterEntrySignal, AfterCloseSignal, Frozen, ProcessTier;
  }

  lemma {:induction false} ProcessEntry(cfg: Config, tiers: seq<Tier>, i: nat, bar: Bar, input: TierInput)
    requires i < |tiers| && tiers[i].capital != 0.0 && input.market == Bars(bar) && input.signal.EnterSignal?
    requires AfterStops(cfg, tiers[i], bar, input) == tiers[i]
    ensures ProcessTier(cfg, tiers, i, input)
         == AfterEntrySignal(cfg, tiers[i], Tally(tiers, Holds(input.signal.direction)), bar, input)
  {
    assert tiers[i := tiers[i]] == tiers;
    hide Tally, AfterStops, AfterEntrySignal, AfterCloseSignal;
  }

  lemma EntryOpens(cfg: Config, t: Tier, openSame: nat, direction: Direction)
    requires t.capital > 0.0 && t.active && !t.state.inPosition
    requires !Frozen(cfg, t) && direction != NoSide && openSame < cfg.maxSameDirection
    ensures AfterEntrySignal(cfg, t, openSame, Bar(1.0, 1.0, 1.0), FavourableInput(direction)).tier.state.inPosition
  {
    QuantityAtPriceOne(t.capital + t.state.realizedPnl);
    hide LossHalted, CalculateQuantity, Save;
  }

  lemma QuantityAtPriceOne(equity: real)
    requires BINANCE_MIN_NOTIONAL <= equity * POSITION_SIZE_FRACTION
    ensures CalculateQuantity(equity, 1.0).Some? && CalculateQuantity(equity, 1.0).value > 0.0
  {
    var spend := equity * POSITION_SIZE_FRACTION;
    assert spend / 1.0 == spend;
    assert (spend / 1.0 * 1000000.0).Floor >= 1;
  }

  /** An order spends at most a quarter of the equity at the current price, and falls short of it by
      less than one millionth of a unit. */
  lemma QuantityFillsTheSlice(equity: real, price: real)
    requires 0.0 < price && BINANCE_MIN_NOTIONAL <= equity * POSITION_SIZE_FRACTION
    ensures var quantity := CalculateQuantity(equity, price);
            && quantity.Some? && 0.0 <= quantity.value
            && quantity.value * price <= equity * POSITION_SIZE_FRACTION < (quantity.value + 0.000001) * price
  {
    var spend := equity * POSITION_SIZE_FRACTION;
    var units := spend / price;
    DivTimes(spend, price);
    var quantity := (units * 1000000.0).Floor as real / 1000000.0;
    ProductOrder(quantity, units, price, quantity * price, spend);
    ProductOrder(units, quantity + 0.000001, price, spend, (quantity + 0.000001) * price);
    QuotientSign(spend, price, units);
  }

  lemma ProductOrder(a: real, b: real, c: real, ac: real, bc: real)
    requires 0.0 < c && a <= b && ac == a * c && bc == b * c
    ensures ac <= bc
    ensures a < b ==> ac < bc
  {
    assert bc - ac == (b - a) * c;
    if a < b { ProductPositive(b - a, c, bc - ac); }
  }

  lemma QuotientSign(dividend: real, divisor: real, quotient: real)
    requires 0.0 < divisor && 0.0 <= dividend && dividend == quotient * divisor
    ensures 0.0 <= quotient
  {
    if quotient < 0.0 {
      ProductPositive(-quotient, divisor, -dividend);
    }
  }

  /** What an entry signal that opens a position books. */
  lemma OpenedPositionIsTheOrder(cfg: Config, t: Tier, openSame: nat, bar: Bar, input: TierInput)
    requires t.capital > 0.0 && input.signal.EnterSignal? && !t.state.inPosition && 0.0 < bar.close
    requires AfterEntrySignal(cfg, t, openSame, bar, input).tier.state.inPosition
    ensures var s := AfterEntrySignal(cfg, t, openSame, bar, input).tier.state;
            && s.side == input.signal.direction && s.entryPrice == input.signalFill.price > 0.0
            && s.stopLoss == input.signal.stopLoss && s.takeProfit == input.signal.takeProfit
            && s.quantity * bar.close <= (t.capital + t.state.realizedPnl) * POSITION_SIZE_FRACTION
            && s.realizedPnl == t.state.realizedPnl && s.history == t.state.history
    ensures input.regimeAllowsEntry && input.signalGuard == KillOff && openSame < cfg.maxSameDirection
    ensures !LossHalted(cfg, t.capital, t.state.realizedPnl, t.capital + t.state.realizedPnl)
  {
    var equity := t.capital + t.state.realizedPnl;
    if BINANCE_MIN_NOTIONAL <= equity * POSITION_SIZE_FRACTION {
      QuantityFillsTheSlice(equity, bar.close);
    }
    hide CalculateQuantity, LossHalted;
  }
}
