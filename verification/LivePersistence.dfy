/**
 Where a restarted tier finds its state when writes and reads can fail
 (scripts/run_live_trading.py, 707-870): every save writes the database row and then a backup file,
 each on its own; a load takes the row if the database answers with one, then the file, then a fresh
 state.
 */
module LivePersistence {
  import opened Wrappers
  import opened LiveState

  /** The backup file. It holds the whole state, running total included; a write that fails after the
      file was opened leaves it empty or cut short. */
  datatype Backup = NoFile | Holding(state: TierState) | Unreadable

  datatype FileWrite = Written | NotWritten | Broken

  datatype Stores = Stores(row: Option<SessionRow>, backup: Backup)

  /** How the two writes of one save went. */
  datatype Attempt = Attempt(rowWritten: bool, file: FileWrite)

  function SaveState(stores: Stores, s: TierState, a: Attempt): Stores {
    Stores(
      if a.rowWritten then Some(Save(s)) else stores.row,
      match a.file case Written => Holding(s) case NotWritten => stores.backup case Broken => Unreadable)
  }

  function LoadState(stores: Stores, databaseAnswers: bool): TierState {
    if databaseAnswers && stores.row.Some? then Load(stores.row)
    else match stores.backup case Holding(s) => s case _ => FRESH
  }

  /** The stores after saving each state in turn. */
  function StoresAfter(states: seq<TierState>, attempts: seq<Attempt>): Stores
    requires |states| == |attempts|
  {
    if states == [] then Stores(None, NoFile)
    else
      var n := |states| - 1;
      SaveState(StoresAfter(states[..n], attempts[..n]), states[n], attempts[n])
  }

  /** The same state, up to the running total, which the row does not hold. */
  predicate SameButTotal(a: TierState, b: TierState) {
    a == b.(realizedPnl := a.realizedPnl)
  }

  predicate SomeRowWritten(attempts: seq<Attempt>) {
    exists a :: a in attempts && a.rowWritten
  }

  /** The store that a load will take was written by the last save. */
  predicate LastSaveIsRead(attempts: seq<Attempt>, databaseAnswers: bool)
    requires attempts != []
  {
    var last := attempts[|attempts| - 1];
    if databaseAnswers && SomeRowWritten(attempts) then last.rowWritten else last.file.Written?
  }

  lemma {:induction false} RowIsHeld(states: seq<TierState>, attempts: seq<Attempt>)
    requires |states| == |attempts|
    ensures StoresAfter(states, attempts).row.Some? <==> SomeRowWritten(attempts)
  {
    hide Save;
    if states != [] {
      var n := |states| - 1;
      RowIsHeld(states[..n], attempts[..n]);
      assert attempts == attempts[..n] + [attempts[n]];
    }
  }

  /** Every store holds a saved state, or nothing. */
  lemma {:induction false} StoresHoldSaved(states: seq<TierState>, attempts: seq<Attempt>, p: TierState -> bool)
    requires |states| == |attempts| && forall s :: s in states ==> p(s)
    ensures var stores := StoresAfter(states, attempts);
            && (stores.row.Some? ==> exists s :: p(s) && stores.row.value == Save(s))
            && (stores.backup.Holding? ==> p(stores.backup.state))
  {
    hide Save;
    if states != [] {
      var n := |states| - 1;
      StoresHoldSaved(states[..n], attempts[..n], p);
    }
  }

  /** The last save. */
  lemma {:induction false} LastSave(states: seq<TierState>, attempts: seq<Attempt>, n: nat)
    requires |states| == |attempts| == n + 1
    ensures StoresAfter(states, attempts) == SaveState(StoresAfter(states[..n], attempts[..n]), states[n], attempts[n])
    ensures SomeRowWritten(attempts) <==> SomeRowWritten(attempts[..n]) || attempts[n].rowWritten
  {
    assert attempts == attempts[..n] + [attempts[n]];
  }

  lemma {:induction false} LoadFindsLast(states: seq<TierState>, attempts: seq<Attempt>, databaseAnswers: bool)
    requires |states| == |attempts| && attempts != [] && LastSaveIsRead(attempts, databaseAnswers)
    requires Kept(states[|states| - 1])
    ensures SameButTotal(LoadState(StoresAfter(states, attempts), databaseAnswers), states[|states| - 1])
  {
    hide Kept, Save, Load, StoresAfter, SomeRowWritten;
    var n := |states| - 1;
    LastSave(states, attempts, n);
    RowIsHeld(states, attempts);
    RestartRestores(states[n]);
  }

  /** Otherwise it finds an older state, or none. */
  lemma {:induction false} LoadFindsOlder(states: seq<TierState>, attempts: seq<Attempt>, databaseAnswers: bool)
    requires |states| == |attempts| && attempts != [] && !LastSaveIsRead(attempts, databaseAnswers)
    requires forall i :: 0 <= i < |states| - 1 ==> states[i] == FRESH
    ensures LoadState(StoresAfter(states, attempts), databaseAnswers).totalTrades == 0
  {
    hide StoresAfter, SomeRowWritten;
    var n := |states| - 1;
    LastSave(states, attempts, n);
    RowIsHeld(states[..n], attempts[..n]);
    RowIsHeld(states, attempts);
    StoresHoldSaved(states[..n], attempts[..n], s => s == FRESH);
  }

  /** Whatever the saved states were, a restart finds the last one exactly if the store it reads was
      written by the last save: a row that could not be updated is preferred to a newer backup. */
  lemma {:induction false} RestartFindsLastIff(attempts: seq<Attempt>, databaseAnswers: bool)
    requires attempts != []
    ensures (forall states :: |states| == |attempts| && (forall s :: s in states ==> Kept(s))
               ==> SameButTotal(LoadState(StoresAfter(states, attempts), databaseAnswers), states[|states| - 1]))
       <==> LastSaveIsRead(attempts, databaseAnswers)
  {
    hide StoresAfter, LoadState, LastSaveIsRead, Kept;
    var n := |attempts| - 1;
    if LastSaveIsRead(attempts, databaseAnswers) {
      forall states | |states| == |attempts| && (forall s :: s in states ==> Kept(s))
        ensures SameButTotal(LoadState(StoresAfter(states, attempts), databaseAnswers), states[|states| - 1])
      {
        LoadFindsLast(states, attempts, databaseAnswers);
      }
    } else {
      var last := OneTrade();
      var states := seq(n, _ => FRESH) + [last];
      assert states[|states| - 1] == last;
      LoadFindsOlder(states, attempts, databaseAnswers);
    }
  }

  lemma OneTrade() returns (s: TierState)
    ensures Kept(s) && Kept(FRESH) && s.totalTrades == 1
  {
    var r := TradeRecord(LongSide, "", 0.0, 0.0, 0.0, 0.0, 0.0, 0.0, 0.0, 0.0, "", "");
    s := FRESH.(totalTrades := 1, history := [r]);
    RecordedPnlAppend([], r);
    assert [] + [r] == [r];
  }

  /** A restart from the backup alone keeps the running total too. */
  lemma {:induction false} BackupKeepsTotal(states: seq<TierState>, attempts: seq<Attempt>)
    requires |states| == |attempts| && attempts != []
    requires attempts[|attempts| - 1].file.Written?
    ensures LoadState(StoresAfter(states, attempts), false) == states[|states| - 1]
  {
  }

  /** A closed position comes back: the row of the close could not be written, its backup was, and the
      restart reads the row from before it. */
  lemma ClosedPositionReturns(open: TierState, exitPrice: real, reason: string, symbol: string)
    requires open.inPosition
    ensures var closed := Closed(open, exitPrice, reason, symbol);
            var stores := StoresAfter([open, closed], [Attempt(true, Written), Attempt(false, Written)]);
            && !closed.inPosition && stores.backup == Holding(closed)
            && LoadState(stores, true).inPosition
  {
    var closed := Closed(open, exitPrice, reason, symbol);
    assert [open, closed][..1] == [open];
  }
}
