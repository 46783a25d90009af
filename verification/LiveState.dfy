/**
 The state of one live tier and its bookkeeping: closing trades with rounding, saving, loading,
 equity and stop checks (scripts/run_live_trading.py, 707-909, 1024-1108, 1174-1258).
 A key missing from the state dict reads as its `.get` default.
 */
module LiveState {
  import opened RealArithmetic
  import opened Wrappers

  datatype Direction = LongSide | ShortSide | NoSide

  datatype TradeRecord = TradeRecord(
    direction: Direction,
    symbol: string,
    entryPrice: real,
    exitPrice: real,
    quantity: real,
    entryCommission: real,
    exitCommission: real,
    grossPnl: real,
    realizedPnl: real,
    returnPct: real,
    exitReason: string,
    entryTime: string)

  datatype TierState = TierState(
    inPosition: bool,
    side: Direction,
    quantity: real,
    entryPrice: real,
    entryTime: string,
    stopLoss: Option<real>,
    takeProfit: Option<real>,
    realizedPnl: real,
    totalTrades: int,
    history: seq<TradeRecord>)

  const FRESH := TierState(false, NoSide, 0.0, 0.0, "", None, None, 0.0, 0, [])

  const COMMISSION_RATE := 0.001
  const ROUNDING_ERROR := 0.00005

  /** Python's round(x, 4) and round(x, 6). */
  function Round4(x: real): real {
    RoundHalfEven(x * 10000.0) as real / 10000.0
  }

  function Round6(x: real): real {
    RoundHalfEven(x * 1000000.0) as real / 1000000.0
  }

  lemma Round4Error(x: real)
    ensures -ROUNDING_ERROR <= Round4(x) - x <= ROUNDING_ERROR
  {
    var n := RoundHalfEven(x * 10000.0) as real;
    assert -0.5 <= n - x * 10000.0 <= 0.5;
  }

  // ----- closing a trade --------------------------------------------------------------------

  function GrossPnl(s: TierState, exitPrice: real): real {
    if s.side == LongSide then (exitPrice - s.entryPrice) * s.quantity else (s.entryPrice - exitPrice) * s.quantity
  }

  function Commission(price: real, quantity: real): real {
    price * quantity * COMMISSION_RATE
  }

  function NetPnl(s: TierState, exitPrice: real): real {
    GrossPnl(s, exitPrice) - (Commission(s.entryPrice, s.quantity) + Commission(exitPrice, s.quantity))
  }

  function ReturnPct(netPnl: real, entryPrice: real, quantity: real): real {
    if entryPrice * quantity > 0.0 then netPnl / (entryPrice * quantity) * 100.0 else 0.0
  }

  function RecordOf(s: TierState, exitPrice: real, reason: string, symbol: string): TradeRecord {
    var net := NetPnl(s, exitPrice);
    TradeRecord(s.side, symbol, s.entryPrice, exitPrice, s.quantity,
      Round6(Commission(s.entryPrice, s.quantity)), Round6(Commission(exitPrice, s.quantity)),
      Round4(GrossPnl(s, exitPrice)), Round4(net), Round4(ReturnPct(net, s.entryPrice, s.quantity)), reason,
        s.entryTime)
  }

  function Closed(s: TierState, exitPrice: real, reason: string, symbol: string): TierState {
    TierState(false, NoSide, 0.0, 0.0, "", None, None,
      s.realizedPnl + NetPnl(s, exitPrice), s.totalTrades + 1, s.history + [RecordOf(s, exitPrice, reason, symbol)])
  }

  function Opened(s: TierState, side: Direction, quantity: real, price: real, time: string,
                  stopLoss: Option<real>, takeProfit: Option<real>): TierState {
    s.(inPosition := true, side := side, quantity := quantity, entryPrice := price, entryTime := time,
       stopLoss := stopLoss, takeProfit := takeProfit)
  }

  // ----- saving and loading -----------------------------------------------------------------

  datatype PositionData = PositionData(
    side: Direction,
    quantity: real,
    entryPrice: real,
    entryTime: string,
    stopLoss: Option<real>,
    takeProfit: Option<real>)

  /** The stored row; the realized PnL is not a column of it. */
  datatype SessionRow = SessionRow(position: Option<PositionData>, tradeLog: seq<TradeRecord>, totalTrades: int)

  function Save(s: TierState): SessionRow {
    SessionRow(
      if s.inPosition
      then Some(PositionData(s.side, s.quantity, s.entryPrice, s.entryTime, s.stopLoss, s.takeProfit)) else None,
      s.history, s.totalTrades)
  }

  function RecordedPnl(history: seq<TradeRecord>): real {
    if history == [] then 0.0 else RecordedPnl(history[..|history| - 1]) + history[|history| - 1].realizedPnl
  }

  /** The state restored from a row, or a fresh one when there is no row. */
  function Load(row: Option<SessionRow>): TierState {
    if row.None? then FRESH else
    var r := row.value;
    var flat := TierState(false, NoSide, 0.0, 0.0, "", None, None, RecordedPnl(r.tradeLog), r.totalTrades, r.tradeLog);
    if r.position.None? then flat else
    var p := r.position.value;
    Opened(flat, p.side, p.quantity, p.entryPrice, p.entryTime, p.stopLoss, p.takeProfit)
  }

  // ----- equity and stops -------------------------------------------------------------------

  function Unrealized(side: Direction, entryPrice: real, quantity: real, price: real): real {
    match side
    case LongSide => (price - entryPrice) * quantity
    case ShortSide => (entryPrice - price) * quantity
    case NoSide => 0.0
  }

  function Equity(s: TierState, capital: real, price: Option<real>): real {
    var booked := capital + s.realizedPnl;
    if s.inPosition && price.Some? && price.value > 0.0
    then booked + Unrealized(s.side, s.entryPrice, s.quantity, price.value)
    else booked
  }

  datatype Bar = Bar(low: real, high: real, close: real)

  datatype Exit = NoExit | ExitAt(reason: string, level: real)

  /** Stop-loss before take-profit, on the bar's low and high. */
  function CheckStops(s: TierState, bar: Bar): Exit {
    if !s.inPosition || s.side == NoSide then NoExit else
    var stopHit := s.stopLoss.Some? &&
                   (if s.side == LongSide then bar.low <= s.stopLoss.value else bar.high >= s.stopLoss.value);
    var takeHit := s.takeProfit.Some? &&
                   (if s.side == LongSide then bar.high >= s.takeProfit.value else bar.low <= s.takeProfit.value);
    if stopHit then ExitAt("stop_loss", s.stopLoss.value)
    else if takeHit then ExitAt("take_profit", s.takeProfit.value)
    else NoExit
  }

  lemma ScaleSign(x: real, q: real, product: real)
    requires 0.0 < q && product == x * q
    ensures product > 0.0 <==> x > 0.0
  {
  }

  /** A trade makes money exactly when the price moved its way by more than both commissions. */
  lemma ProfitableIff(s: TierState, exitPrice: real)
    requires 0.0 < s.quantity
    ensures s.side == LongSide ==>
              (NetPnl(s, exitPrice) > 0.0
               <==> exitPrice * (1.0 - COMMISSION_RATE) > s.entryPrice * (1.0 + COMMISSION_RATE))
    ensures s.side == ShortSide ==>
              (NetPnl(s, exitPrice) > 0.0
               <==> s.entryPrice * (1.0 - COMMISSION_RATE) > exitPrice * (1.0 + COMMISSION_RATE))
    ensures NetPnl(s, exitPrice) == s.quantity *
              if s.side == LongSide then exitPrice * (1.0 - COMMISSION_RATE) - s.entryPrice * (1.0 + COMMISSION_RATE)
              else s.entryPrice * (1.0 - COMMISSION_RATE) - exitPrice * (1.0 + COMMISSION_RATE)
  {
    var edge := if s.side == LongSide
                then exitPrice * (1.0 - COMMISSION_RATE) - s.entryPrice * (1.0 + COMMISSION_RATE)
                else s.entryPrice * (1.0 - COMMISSION_RATE) - exitPrice * (1.0 + COMMISSION_RATE);
    ScaleSign(edge, s.quantity, NetPnl(s, exitPrice));
  }

  /** Equity marks the position to market: closing at the current price costs the two commissions and
      nothing else, and from then on the price does not matter. */
  lemma ClosingCostsCommissions(s: TierState, capital: real, price: real, later: Option<real>, reason: string,
                                symbol: string)
    requires s.inPosition && s.side != NoSide && 0.0 < price
    ensures Equity(Closed(s, price, reason, symbol), capital, later)
         == Equity(s, capital, Some(price)) - (s.entryPrice + price) * s.quantity * COMMISSION_RATE
    ensures later.Some? && later.value <= 0.0 ==> Equity(s, capital, later) == capital + s.realizedPnl
    ensures Equity(s, capital, None) == capital + s.realizedPnl
  {
    hide RecordOf;
    assert (s.entryPrice + price) * s.quantity * COMMISSION_RATE
        == s.entryPrice * s.quantity * COMMISSION_RATE + price * s.quantity * COMMISSION_RATE;
  }

  /** The record of a close holds the terms of its trade, and its rounded amounts add up. */
  lemma RecordHoldsTheTrade(s: TierState, exitPrice: real, reason: string, symbol: string)
    ensures var r := RecordOf(s, exitPrice, reason, symbol);
            && r.direction == s.side && r.symbol == symbol && r.exitReason == reason && r.entryTime == s.entryTime
            && r.entryPrice == s.entryPrice && r.exitPrice == exitPrice && r.quantity == s.quantity
            && Abs(r.realizedPnl - NetPnl(s, exitPrice)) <= ROUNDING_ERROR
            && Abs(r.grossPnl - (r.entryCommission + r.exitCommission) - r.realizedPnl) <= 2.02 * ROUNDING_ERROR
  {
    hide GrossPnl, Commission, ReturnPct;
    var net := NetPnl(s, exitPrice);
    Round4Error(net);
    Round4Error(GrossPnl(s, exitPrice));
    Round6Error(Commission(s.entryPrice, s.quantity));
    Round6Error(Commission(exitPrice, s.quantity));
    hide Round4, Round6;
  }

  /** The recorded return is the net of the trade in percent of its stake, up to rounding. */
  lemma RecordedReturn(s: TierState, exitPrice: real, reason: string, symbol: string, stake: real)
    requires stake == s.entryPrice * s.quantity
    ensures var percent := RecordOf(s, exitPrice, reason, symbol).returnPct;
            if 0.0 < stake then Abs(percent * stake - 100.0 * NetPnl(s, exitPrice)) <= ROUNDING_ERROR * stake
            else percent == 0.0
  {
    hide NetPnl, GrossPnl, Commission, Round4, Round6, ReturnPct;
    ReturnOnStake(NetPnl(s, exitPrice), s.entryPrice, s.quantity, stake);
  }

  lemma ReturnOnStake(net: real, entryPrice: real, quantity: real, stake: real)
    requires stake == entryPrice * quantity
    ensures var percent := Round4(ReturnPct(net, entryPrice, quantity));
            if 0.0 < stake then Abs(percent * stake - 100.0 * net) <= ROUNDING_ERROR * stake else percent == 0.0
  {
    var percent := ReturnPct(net, entryPrice, quantity);
    if 0.0 < stake {
      DivTimes(net, stake);
      Round4Error(percent);
      var error := Round4(percent) - percent;
      hide Round4, ReturnPct;
      ScaledNonNegative(ROUNDING_ERROR - error, stake, (ROUNDING_ERROR - error) * stake);
      ScaledNonNegative(ROUNDING_ERROR + error, stake, (ROUNDING_ERROR + error) * stake);
      assert Round4(percent) * stake == percent * stake + error * stake;
    }
  }

  lemma Round6Error(x: real)
    ensures -0.0000005 <= Round6(x) - x <= 0.0000005
  {
    var n := RoundHalfEven(x * 1000000.0) as real;
    assert -0.5 <= n - x * 1000000.0 <= 0.5;
  }

  /** The level was reached by the bar. */
  predicate Touched(bar: Bar, level: real) {
    bar.low <= level <= bar.high
  }

  predicate StopAt(s: TierState, price: real) {
    s.stopLoss.Some? && ((s.side == LongSide && price <= s.stopLoss.value)
                         || (s.side == ShortSide && s.stopLoss.value <= price))
  }

  predicate TakeAt(s: TierState, price: real) {
    s.takeProfit.Some? && ((s.side == LongSide && s.takeProfit.value <= price)
                           || (s.side == ShortSide && price <= s.takeProfit.value))
  }

  /** A bar triggers an exit exactly when some price within it would: the stop if any price of the
      bar reaches it, and otherwise the target. */
  lemma ExitExactly(s: TierState, bar: Bar)
    requires s.inPosition && bar.low <= bar.high
    ensures var stops := exists p :: bar.low <= p <= bar.high && StopAt(s, p);
            var takes := exists p :: bar.low <= p <= bar.high && TakeAt(s, p);
            && (stops ==> s.stopLoss.Some?) && (takes ==> s.takeProfit.Some?)
            && CheckStops(s, bar) == if stops then ExitAt("stop_loss", s.stopLoss.value)
                                     else if takes then ExitAt("take_profit", s.takeProfit.value) else NoExit
  {
    if StopAt(s, bar.low) || StopAt(s, bar.high) {
    } else {
      assert forall p :: bar.low <= p <= bar.high ==> !StopAt(s, p);
    }
    if TakeAt(s, bar.low) || TakeAt(s, bar.high) {
    } else {
      assert forall p :: bar.low <= p <= bar.high ==> !TakeAt(s, p);
    }
  }

  /** When a bar reaches both levels of a position, the exit reported is the worse one. */
  lemma ExitIsWorstCase(s: TierState, bar: Bar)
    requires s.inPosition && s.stopLoss.Some? && s.takeProfit.Some?
    requires s.side == LongSide ==> s.stopLoss.value < s.takeProfit.value
    requires s.side == ShortSide ==> s.takeProfit.value < s.stopLoss.value
    requires Touched(bar, s.stopLoss.value) && Touched(bar, s.takeProfit.value)
    ensures s.side != NoSide ==> CheckStops(s, bar) == ExitAt("stop_loss", s.stopLoss.value)
    ensures s.side == LongSide ==> CheckStops(s, bar).level < s.takeProfit.value
    ensures s.side == ShortSide ==> CheckStops(s, bar).level > s.takeProfit.value
  {
  }

  // ----- what the books keep ----------------------------------------------------------------

  /** One record per trade, no leftovers of a position when flat, and a running total that differs
      from the recorded trades by at most the rounding of each. */
  ghost predicate Kept(s: TierState) {
    && s.totalTrades == |s.history|
    && (!s.inPosition ==> s == FRESH.(realizedPnl := s.realizedPnl, totalTrades := s.totalTrades, history := s.history))
    && Abs(s.realizedPnl - RecordedPnl(s.history)) <= (|s.history| as real) * ROUNDING_ERROR
  }

  lemma {:induction false} RecordedPnlAppend(history: seq<TradeRecord>, r: TradeRecord)
    ensures RecordedPnl(history + [r]) == RecordedPnl(history) + r.realizedPnl
  {
    assert (history + [r])[..|history|] == history;
  }

  lemma CloseKeeps(s: TierState, exitPrice: real, reason: string, symbol: string)
    requires Kept(s)
    ensures Kept(Closed(s, exitPrice, reason, symbol))
  {
    hide NetPnl, Round4, Round6, GrossPnl;
    RecordedPnlAppend(s.history, RecordOf(s, exitPrice, reason, symbol));
    Round4Error(NetPnl(s, exitPrice));
    var n := |s.history|;
    assert ((n + 1) as real) * ROUNDING_ERROR == (n as real) * ROUNDING_ERROR + ROUNDING_ERROR;
  }

  /** A restart restores position, stops, history and trade count exactly, and the running total
      up to the rounding of the recorded trades. */
  lemma RestartRestores(s: TierState)
    requires Kept(s)
    ensures Load(Some(Save(s))) == s.(realizedPnl := RecordedPnl(s.history))
    ensures Kept(Load(Some(Save(s))))
    ensures Abs(Load(Some(Save(s))).realizedPnl - s.realizedPnl) <= (|s.history| as real) * ROUNDING_ERROR
  {
    assert 0.0 <= (|s.history| as real) * ROUNDING_ERROR;
  }

  /** Hence the stop and take-profit checks are unchanged by a restart, and equity by no more
      than the drift of the running total, at every price. */
  lemma RestartKeepsChecks(s: TierState, capital: real, price: Option<real>, bar: Bar)
    requires Kept(s)
    ensures CheckStops(Load(Some(Save(s))), bar) == CheckStops(s, bar)
    ensures Abs(Equity(Load(Some(Save(s))), capital, price) - Equity(s, capital, price))
        <= (|s.history| as real) * ROUNDING_ERROR
  {
    hide Unrealized, Load, Save, RecordedPnl;
    RestartRestores(s);
  }

  // ----- any sequence of trades and restarts ---------------------------------------------------

  datatype BookOp =
    | Open(side: Direction, quantity: real, price: real, time: string, stopLoss: Option<real>, takeProfit: Option<real>)
    | Close(exitPrice: real, reason: string)
    | Restart

  /** The state after the operations, together with the exact net PnL of every close. */
  datatype Books = Books(state: TierState, nets: seq<real>)

  function Apply(b: Books, op: BookOp, symbol: string): Books {
    match op
    case Open(side, quantity, price, time, stop, take) =>
      Books(Opened(b.state, side, quantity, price, time, stop, take), b.nets)
    case Close(exitPrice, reason) =>
      Books(Closed(b.state, exitPrice, reason, symbol), b.nets + [NetPnl(b.state, exitPrice)])
    case Restart => Books(Load(Some(Save(b.state))), b.nets)
  }

  function BooksAfter(ops: seq<BookOp>, symbol: string): Books {
    if ops == [] then Books(FRESH, [])
    else Apply(BooksAfter(ops[..|ops| - 1], symbol), ops[|ops| - 1], symbol)
  }

  function SumOf(xs: seq<real>): real {
    if xs == [] then 0.0 else SumOf(xs[..|xs| - 1]) + xs[|xs| - 1]
  }

  /** Each record holds its trade's exact net PnL, rounded to four places. */
  ghost predicate RecordsMatch(b: Books) {
    |b.nets| == |b.state.history| &&
    forall i :: 0 <= i < |b.nets| ==> b.state.history[i].realizedPnl == Round4(b.nets[i])
  }

  ghost predicate Within(x: real, y: real, n: nat) {
    Abs(x - y) <= (n as real) * ROUNDING_ERROR
  }

  ghost predicate Reconciled(b: Books) {
    && Kept(b.state) && RecordsMatch(b)
    && Within(b.state.realizedPnl, SumOf(b.nets), |b.nets|)
    && Within(RecordedPnl(b.state.history), SumOf(b.nets), |b.nets|)
  }

  lemma WithinGrows(x: real, y: real, n: nat, dx: real, dy: real)
    requires Within(x, y, n) && -ROUNDING_ERROR <= dx - dy <= ROUNDING_ERROR
    ensures Within(x + dx, y + dy, n + 1)
  {
    assert ((n + 1) as real) * ROUNDING_ERROR == (n as real) * ROUNDING_ERROR + ROUNDING_ERROR;
  }

  lemma CloseReconciles(b: Books, exitPrice: real, reason: string, symbol: string)
    requires Reconciled(b)
    ensures Reconciled(Apply(b, Close(exitPrice, reason), symbol))
  {
    hide NetPnl, Round4, Round6, GrossPnl, SumOf, RecordedPnl, Within, Kept;
    var net, record := NetPnl(b.state, exitPrice), RecordOf(b.state, exitPrice, reason, symbol);
    CloseKeeps(b.state, exitPrice, reason, symbol);
    RecordedPnlAppend(b.state.history, record);
    SumAppend(b.nets, net);
    Round4Error(net);
    WithinGrows(b.state.realizedPnl, SumOf(b.nets), |b.nets|, net, net);
    WithinGrows(RecordedPnl(b.state.history), SumOf(b.nets), |b.nets|, Round4(net), net);
  }

  lemma {:induction false} SumAppend(xs: seq<real>, x: real)
    ensures SumOf(xs + [x]) == SumOf(xs) + x
  {
    assert (xs + [x])[..|xs|] == xs;
  }

  /** Across any sequence of opens, closes and restarts the trade count is the history length, and
      the running total is within 0.00005 per trade of the exact sum of net PnLs. */
  lemma {:induction false} BooksDriftBounded(ops: seq<BookOp>, symbol: string)
    ensures var b := BooksAfter(ops, symbol);
            && Reconciled(b)
            && b.state.totalTrades == |b.state.history| == |b.nets|
            && Abs(b.state.realizedPnl - SumOf(b.nets)) <= (|b.nets| as real) * ROUNDING_ERROR
  {
    hide Apply, Kept, SumOf, Round4;
    if ops != [] {
      BooksDriftBounded(ops[..|ops| - 1], symbol);
      StepReconciles(BooksAfter(ops[..|ops| - 1], symbol), ops[|ops| - 1], symbol);
    } else {
      NothingBooked();
    }
    KeptCounts(BooksAfter(ops, symbol).state);
  }

  lemma KeptCounts(s: TierState)
    requires Kept(s)
    ensures s.totalTrades == |s.history|
  {
  }

  lemma NothingBooked()
    ensures Reconciled(Books(FRESH, []))
  {
  }

  lemma StepReconciles(b: Books, op: BookOp, symbol: string)
    requires Reconciled(b)
    ensures Reconciled(Apply(b, op, symbol))
  {
    hide NetPnl, Round4, Round6, GrossPnl, SumOf, RecordedPnl, Within;
    match op
    case Open(_, _, _, _, _, _) =>
    case Close(exitPrice, reason) => CloseReconciles(b, exitPrice, reason, symbol);
    case Restart => RestartRestores(b.state);
  }
}
