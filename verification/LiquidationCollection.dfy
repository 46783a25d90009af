/**
 The long-running liquidation collector (research/data/liquidation_collector.py). The outside
 world is a script of deliveries: each answers one `recv` with a frame, a timeout, a dropped (or
 refused) connection or a cancellation. Writing to disk succeeds; a batch the store refuses,
 because a trade time has no date, raises out of `flush` after the buffer was cleared.
 */
module LiquidationCollection {
  import opened Wrappers
  import opened Sorting
  import opened Series
  import opened Liquidations

  datatype Arrival = Message(frame: Frame) | Silence | Dropped | Cancelled

  /** What happens during the reconnect pause. */
  datatype Pause = Undisturbed | StopInPause | CancelledInPause

  /** One answered `recv`. `stopRequested`: stop() was called while it was awaited. If the session
      ends with it, `longLived` says that it had lasted at least backoff_reset_after_s, and `pause`
      what happened in the pause that followed. */
  datatype Delivery = Delivery(arrival: Arrival, stopRequested: bool, longLived: bool, pause: Pause)

  /** How `run` ends: it returns, is cancelled, or a refused batch raises out of it. */
  datatype Outcome = Finished | WasCancelled | Crashed

  datatype Settings = Settings(
    flushMaxEvents: int,
    dedupMemory: int,
    backoffInitial: real,
    backoffMax: real,
    backoffFactor: real)
  {
    function Window(): nat {
      if dedupMemory < 0 then 0 else dedupMemory
    }
  }

  function Keys(events: seq<Event>): seq<Key> {
    seq(|events|, i requires 0 <= i < |events| => events[i].DedupKey())
  }

  /** The last n elements, or all of them. */
  function Suffix<T>(s: seq<T>, n: nat): seq<T> {
    if |s| <= n then s else s[|s| - n..]
  }

  predicate NoRepeats<T(==)>(s: seq<T>) {
    forall i, j :: 0 <= i < j < |s| ==> s[i] != s[j]
  }

  /** Some frame of the list is a well-formed liquidation with this key. */
  predicate FramesHaveKey(frames: seq<Frame>, k: Key) {
    exists f :: f in frames && EventOf(f).Some? && EventOf(f).value.DedupKey() == k
  }

  function FramesIn(script: seq<Delivery>): seq<Frame> {
    if script == [] then []
    else
      var last := script[|script| - 1].arrival;
      FramesIn(script[..|script| - 1]) + (if last.Message? then [last.frame] else [])
  }

  // ----- what a script does, step by step -----------------------------------------------------

  /** Where a run stands: the events buffered, all accepted so far, the batches flushed, and for each
      session that ended in a reconnect whether it had been long-lived. */
  datatype Progress = Progress(
    buffer: seq<Event>,
    accepted: seq<Event>,
    batches: seq<seq<Event>>,
    sessions: seq<bool>,
    outcome: Option<Outcome>)

  /** The event of a frame, unless its key is among the last ones accepted. */
  function Fresh(accepted: seq<Event>, f: Frame, c: Settings): Option<Event> {
    if EventOf(f).Some? && EventOf(f).value.DedupKey() in Suffix(Keys(accepted), c.Window()) then None else EventOf(f)
  }

  function Handled(p: Progress, f: Frame, c: Settings): Progress {
    var event := Fresh(p.accepted, f, c);
    if event.None? then p else p.(buffer := p.buffer + [event.value], accepted := p.accepted + [event.value])
  }

  function Flushed(p: Progress): Progress {
    if p.buffer == [] then p else p.(buffer := [], batches := p.batches + [p.buffer])
  }

  /** The store refuses the buffered batch. */
  predicate FlushRaises(p: Progress) {
    !AllInCalendar(p.buffer)
  }

  /** One delivery inside a session, and whether an error ends the session. */
  function Delivered(p: Progress, d: Delivery, c: Settings): (Progress, bool) {
    match d.arrival
    case Dropped => (p, true)
    case Cancelled => (p, true)
    case Silence => (Flushed(p), FlushRaises(p))
    case Message(frame) =>
      var q := Handled(p, frame, c);
      if Raises(frame) then (q, true)
      else if |q.buffer| >= c.flushMaxEvents then (Flushed(q), FlushRaises(q))
      else (q, false)
  }

  predicate EndsSession(p: Progress, d: Delivery, c: Settings) {
    Delivered(p, d, c).1 || d.stopRequested
  }

  /** The flush when a session ends, and what `run` does next. */
  function SessionEnded(p: Progress, d: Delivery): Progress {
    var q := Flushed(p);
    if FlushRaises(p) then q.(outcome := Some(Crashed))
    else if d.arrival.Cancelled? then q.(outcome := Some(WasCancelled))
    else if d.stopRequested then q.(outcome := Some(Finished))
    else q.(sessions := q.sessions + [d.longLived],
            outcome := match d.pause
                       case Undisturbed => None
                       case StopInPause => Some(Finished)
                       case CancelledInPause => Some(WasCancelled))
  }

  function Step(p: Progress, d: Delivery, c: Settings): Progress {
    if p.outcome.Some? then p
    else if EndsSession(p, d, c) then SessionEnded(Delivered(p, d, c).0, d)
    else Delivered(p, d, c).0
  }

  function After(p: Progress, script: seq<Delivery>, c: Settings): Progress {
    if script == [] then p else Step(After(p, script[..|script| - 1], c), script[|script| - 1], c)
  }

  /** How many deliveries are answered before the run has its outcome. */
  function ConsumedBy(p: Progress, script: seq<Delivery>, c: Settings): nat {
    if script == [] then 0
    else if After(p, script[..|script| - 1], c).outcome.Some? then ConsumedBy(p, script[..|script| - 1], c)
    else |script|
  }

  /** The last flush of a run that returns, or of one cancelled while it waits. */
  function Closed(p: Progress, outcome: Outcome): Progress {
    if p.outcome.Some? then p else Flushed(p).(outcome := Some(if FlushRaises(p) then Crashed else outcome))
  }

  /** A whole run: nothing is received if stop was requested before; a script that runs out leaves the
      collector waiting until it is cancelled. */
  function Whole(p: Progress, stopped: bool, script: seq<Delivery>, c: Settings): Progress {
    if stopped then Closed(p, Finished) else Closed(After(p, script, c), WasCancelled)
  }

  /** All events of the batches, and those of the batches the store took. */
  function Joined(batches: seq<seq<Event>>): seq<Event> {
    if batches == [] then [] else Joined(batches[..|batches| - 1]) + batches[|batches| - 1]
  }

  function Taken(batches: seq<seq<Event>>): seq<Event> {
    if batches == [] then []
    else
      var last := batches[|batches| - 1];
      Taken(batches[..|batches| - 1]) + (if AllInCalendar(last) then last else [])
  }

  datatype SessionEnd = Waiting | Ended(broken: bool)

  class LiquidationCollector {
    const store: LiquidationStore
    const settings: Settings

    var buffer: seq<Event>
    var recentKeys: set<Key>
    var recentOrder: seq<Key>
    var stop: bool
    var received: nat
    var duplicates: nat
    var malformed: nat

    /** History: the frames handled, the events accepted, the batches flushed, the frames that raised,
        and what the store held at the start. */
    ghost var frames: seq<Frame>
    ghost var accepted: seq<Event>
    ghost var batches: seq<seq<Event>>
    ghost var raised: nat
    ghost const initial: Directories

    ghost function Now(sessions: seq<bool>): Progress
      reads this`buffer, this`accepted, this`batches
    {
      Progress(buffer, accepted, batches, sessions, None)
    }

    /** The dedup structures are one thing: the last accepted keys, without repeats. */
    ghost predicate DedupWindow()
      reads this`recentOrder, this`recentKeys, this`accepted
    {
      && recentOrder == Suffix(Keys(accepted), settings.Window())
      && NoRepeats(recentOrder)
      && (forall k :: k in recentKeys <==> k in recentOrder)
    }

    /** Every frame is counted once, and every accepted key came from a frame and conversely. */
    ghost predicate Accounted()
      reads this`received, this`duplicates, this`malformed, this`raised, this`frames, this`accepted
    {
      && received == |accepted|
      && |frames| == received + duplicates + malformed + raised
      && (forall k :: HasKey(accepted, k) <==> FramesHaveKey(frames, k))
    }

    /** Every accepted event is in the buffer or in one batch, and each day holds what it held at the
        start plus the events of the batches the store took, once each. */
    ghost predicate Conserved()
      reads this`buffer, this`accepted, this`batches, store
    {
      && accepted == Joined(batches) + buffer
      && (forall day: int :: Rows(store.dirs, day) == Rows(initial, day) + OnDay(Taken(batches), day))
    }

    ghost predicate Valid()
      reads this`buffer, this`accepted, this`batches, this`recentOrder, this`recentKeys, this`received, this`duplicates
      reads this`malformed, this`raised, this`frames, store
    {
      DedupWindow() && Accounted() && Conserved() && Partitioned(initial)
    }

    constructor (store: LiquidationStore, settings: Settings)
      requires Partitioned(store.dirs)
      ensures Valid() && this.store == store && initial == store.dirs && this.settings == settings
      ensures frames == [] && Now([]) == Progress([], [], [], [], None) && !stop
    {
      this.store, this.settings := store, settings;
      buffer, recentKeys, recentOrder, stop := [], {}, [], false;
      received, duplicates, malformed := 0, 0, 0;
      frames, accepted, batches, raised, initial := [], [], [], 0, store.dirs;
    }

    /** Add a key to both dedup structures and evict the oldest one beyond the memory. */
    method Remember(key: Key)
      requires NoRepeats(recentOrder) && (forall k :: k in recentKeys <==> k in recentOrder) && key !in recentKeys
      modifies this`recentKeys, this`recentOrder
      ensures NoRepeats(recentOrder) && (forall k :: k in recentKeys <==> k in recentOrder)
      ensures recentOrder == EvictOldest(old(recentOrder) + [key], settings.dedupMemory)
    {
      recentKeys := recentKeys + {key};
      recentOrder := recentOrder + [key];
      if |recentOrder| > settings.dedupMemory {
        DropFirst(recentOrder);
        var evicted := recentOrder[0];
        recentOrder := recentOrder[1..];
        recentKeys := recentKeys - {evicted};
      }
    }

    /** Take in an event whose key is not in the window. */
    method Accept(event: Event, ghost frame: Frame)
      requires Valid() && EventOf(frame) == Some(event) && event.DedupKey() !in recentKeys
      modifies this
      ensures Valid() && stop == old(stop) && batches == old(batches)
      ensures frames == old(frames) + [frame] && accepted == old(accepted) + [event] && buffer == old(buffer) + [event]
      ensures duplicates == old(duplicates) && malformed == old(malformed)
    {
      hide Rows, OnDay, Keys, HasKey, FramesHaveKey, Suffix, NoRepeats, EventOf, Joined, Taken;
      Remember(event.DedupKey());
      buffer := buffer + [event];
      received := received + 1;
      frames := frames + [frame];
      accepted := accepted + [event];
      FramesStep(old(frames), frame);
      AcceptStep(old(accepted), event);
      WindowStep(old(accepted), event, old(recentOrder), settings.Window(), recentOrder);
      assert accepted == Joined(batches) + buffer by {
        assert (Joined(batches) + old(buffer)) + [event] == Joined(batches) + (old(buffer) + [event]);
      }
    }

    /** Parse, de-duplicate and buffer one frame; `raises` when an error leaves it. */
    method OnMessage(frame: Frame) returns (event: Option<Event>, raises: bool)
      requires Valid()
      modifies this
      ensures Valid() && stop == old(stop) && frames == old(frames) + [frame]
      ensures raises <==> Raises(frame)
      ensures event == Fresh(old(accepted), frame, settings)
      ensures forall sessions :: Now(sessions) == Handled(old(Now(sessions)), frame, settings)
      ensures duplicates == old(duplicates) + (if EventOf(frame).Some? && event.None? then 1 else 0)
      ensures malformed == old(malformed) + (if EventOf(frame).None? && !raises then 1 else 0)
    {
      hide ParseForceOrder, Conserved, Keys, HasKey, FramesHaveKey, Suffix, NoRepeats;
      FramesStep(frames, frame);
      if frame.NotJson? {
        malformed, frames := malformed + 1, frames + [frame];
        return None, false;
      }
      if frame.Undecodable? {
        raised, frames := raised + 1, frames + [frame];
        return None, true;
      }
      match ParseForceOrder(frame.payload)
      case Raised =>
        raised, frames := raised + 1, frames + [frame];
        return None, true;
      case Rejected =>
        malformed, frames := malformed + 1, frames + [frame];
        return None, false;
      case Liquidation(parsed) =>
        var key := parsed.DedupKey();
        if key in recentKeys {
          KeptKeysWereAccepted(accepted, recentOrder, settings.Window(), key);
          duplicates, frames := duplicates + 1, frames + [frame];
          return None, false;
        }
        Accept(parsed, frame);
        return Some(parsed), false;
    }

    /** Hand the buffer to the store and start a new one; a refused batch is gone. */
    method Flush() returns (raises: bool)
      requires Valid()
      modifies this`buffer, this`batches, store
      ensures Valid() && buffer == []
      ensures raises <==> FlushRaises(old(Now([])))
      ensures forall sessions :: Now(sessions) == Flushed(old(Now(sessions)))
      ensures OnlyAppended(old(store.dirs), store.dirs)
    {
      hide Rows, OnDay, OnlyAppended, Keys, HasKey, FramesHaveKey, InCalendar;
      assert OnlyAppended(store.dirs, store.dirs) by { NothingWritten(store.dirs, [], day => ""); }
      if buffer == [] {
        return false;
      }
      var batch := buffer;
      buffer := [];
      ghost var taken := Taken(batches);
      BatchStep(batches, batch);
      batches := batches + [batch];
      raises := store.WriteBatch(batch);
      NothingOnAnyDay();
      TakenRows(old(store.dirs), store.dirs, initial, taken, if raises then [] else batch);
    }

    /** One session: read until stop, an error or cancellation, or wait for a delivery that never
        comes. The last delivery ended the session; none before it did. */
    method Consume(script: seq<Delivery>, start: nat, ghost sessions: seq<bool>) returns (next: nat, end: SessionEnd)
      requires Valid() && !stop && start <= |script|
      modifies this, store
      ensures Valid() && start <= next <= |script|
      ensures frames == old(frames) + FramesIn(script[start..next])
      ensures end.Waiting? ==>
                !stop && next == |script| && Now(sessions) == After(old(Now(sessions)), script[start..next], settings)
      ensures end.Ended? ==> start < next && stop == script[next - 1].stopRequested
      ensures start < next && script[next - 1].arrival.Silence? ==> buffer == []
      ensures end.Ended? ==>
                var p := After(old(Now(sessions)), script[start..next - 1], settings);
                && p.outcome.None? && EndsSession(p, script[next - 1], settings)
                && (Now(sessions), end.broken) == Delivered(p, script[next - 1], settings)
    {
      hide Valid, FramesIn, Raises, EventOf, Handled, Flushed, After, AllInCalendar;
      next := start;
      FramesInNone();
      NothingDelivered(Now(sessions), settings);
      assert script[start..next] == [];
      while !stop
        invariant Valid() && start <= next <= |script|
        invariant frames == old(frames) + FramesIn(script[start..next])
        invariant !stop ==> Now(sessions) == After(old(Now(sessions)), script[start..next], settings)
        invariant stop ==> start < next && script[next - 1].stopRequested
        invariant start < next && script[next - 1].arrival.Silence? ==> buffer == []
        invariant stop ==>
                    var p := After(old(Now(sessions)), script[start..next - 1], settings);
                    p.outcome.None? && (Now(sessions), false) == Delivered(p, script[next - 1], settings)
        decreases |script| - next, !stop
      {
        if next == |script| {
          return next, Waiting;
        }
        var delivery := script[next];
        ghost var p := Now(sessions);
        assert script[start..next + 1] == script[start..next] + [delivery];
        FramesInStep(script[start..next], delivery);
        AfterStep(old(Now(sessions)), script[start..next], delivery, settings);
        next := next + 1;
        stop := delivery.stopRequested;
        match delivery.arrival
        case Cancelled =>
          return next, Ended(true);
        case Dropped =>
          return next, Ended(true);
        case Silence =>
          var raises := Flush();
          if raises {
            return next, Ended(true);
          }
        case Message(frame) =>
          var event, raises := OnMessage(frame);
          assert Now(sessions) == Handled(p, frame, settings);
          if raises {
            return next, Ended(true);
          }
          if |buffer| >= settings.flushMaxEvents {
            raises := Flush();
            assert Now(sessions) == Flushed(Handled(p, frame, settings));
            if raises {
              assert Delivered(p, delivery, settings) == (Now(sessions), true);
              return next, Ended(true);
            }
          }
      }
      end := Ended(false);
    }

    /** The reconnect loop, from any buffer and even after a stop request; `delays` are the reconnect
        pauses. It does what the script's steps say. */
    method Run(script: seq<Delivery>) returns (consumed: nat, delays: seq<real>, outcome: Outcome)
      requires Valid()
      modifies this, store
      ensures Valid() && buffer == []
      ensures var p := Whole(old(Now([])), old(stop), script, settings);
              && Now(p.sessions) == p.(outcome := None) && p.outcome == Some(outcome)
              && delays == Delays(p.sessions, settings.backoffInitial, settings.backoffMax, settings.backoffFactor)
      ensures consumed == (if old(stop) then 0 else ConsumedBy(old(Now([])), script, settings)) && consumed <= |script|
      ensures frames == old(frames) + FramesIn(script[..consumed])
    {
      hide Valid, FramesIn, After, Delivered, Flushed, AllInCalendar, ConsumedBy, Delays, BackoffAfter, Grown,
        SessionEnded, EndsSession, Step;
      var c := settings;
      ghost var p0, sessions := Now([]), [];
      consumed, delays := 0, [];
      var backoff := c.backoffInitial;
      NothingDelivered(p0, c);
      NoPauses(c);
      FramesInNone();
      assert script[..0] == [];
      while !stop
        invariant Valid() && consumed <= |script|
        invariant frames == old(frames) + FramesIn(script[..consumed])
        invariant delays == Delays(sessions, c.backoffInitial, c.backoffMax, c.backoffFactor)
        invariant backoff == BackoffAfter(sessions, c.backoffInitial, c.backoffMax, c.backoffFactor)
        invariant !old(stop) ==> ConsumedBy(p0, script[..consumed], c) == consumed
        invariant !stop ==> !old(stop) && Now(sessions) == After(p0, script[..consumed], c)
        invariant stop && old(stop) ==> Now(sessions) == p0 && consumed == 0
        invariant stop && !old(stop) ==>
                    After(p0, script[..consumed], c) == Now(sessions).(outcome := Some(Finished)) && buffer == []
        decreases |script| - consumed, !stop
      {
        ghost var start := consumed;
        var end: SessionEnd;
        consumed, end := Consume(script, consumed, sessions);
        FramesSplit(script, start, consumed);
        SessionSplits(p0, script, start, consumed, c);
        var raises := Flush();
        if end.Waiting? {
          assert script[..consumed] == script;
          return consumed, delays, if raises then Crashed else WasCancelled;
        }
        SessionSplits(p0, script, start, consumed - 1, c);
        LastOfSession(p0, script, consumed, c);
        var last := script[consumed - 1];
        HowItEnded(Delivered(After(p0, script[..consumed - 1], c), last, c).0, last);
        if raises || last.arrival.Cancelled? {
          OutcomeIsFinal(p0, script, consumed, c);
          return consumed, delays, if raises then Crashed else WasCancelled;
        }
        if stop {
          break;
        }
        var delay := if last.longLived then c.backoffInitial else backoff;
        PauseStep(sessions, last.longLived, c.backoffInitial, c.backoffMax, c.backoffFactor);
        delays := delays + [delay];
        sessions := sessions + [last.longLived];
        if last.pause.CancelledInPause? {
          OutcomeIsFinal(p0, script, consumed, c);
          return consumed, delays, WasCancelled;
        }
        stop := last.pause.StopInPause?;
        backoff := Grown(delay, c.backoffFactor, c.backoffMax);
      }
      if !old(stop) {
        OutcomeIsFinal(p0, script, consumed, c);
        FlushNothing(Now(sessions));
      }
      assert old(stop) ==> Now(sessions) == p0;
      var raises := Flush();
      outcome := if raises then Crashed else Finished;
    }
  }

  // ----- the steps of a script ------------------------------------------------------------------

  lemma {:induction false} NothingDelivered(p: Progress, c: Settings)
    ensures After(p, [], c) == p && ConsumedBy(p, [], c) == 0
  {
  }

  lemma {:induction false} AfterStep(p: Progress, script: seq<Delivery>, d: Delivery, c: Settings)
    ensures After(p, script + [d], c) == Step(After(p, script, c), d, c)
  {
    assert (script + [d])[..|script|] == script;
  }

  lemma {:induction false} AfterSplits(p: Progress, a: seq<Delivery>, b: seq<Delivery>, c: Settings)
    ensures After(After(p, a, c), b, c) == After(p, a + b, c)
  {
    hide Step;
    if b == [] {
      assert a + b == a;
    } else {
      AfterSplits(p, a, b[..|b| - 1], c);
      assert (a + b)[..|a + b| - 1] == a + b[..|b| - 1];
    }
  }

  lemma {:induction false} SessionSplits(p: Progress, script: seq<Delivery>, start: nat, next: nat, c: Settings)
    requires start <= next <= |script|
    ensures After(After(p, script[..start], c), script[start..next], c) == After(p, script[..next], c)
    ensures After(p, script[..next], c).outcome.None? ==> ConsumedBy(p, script[..next], c) == next
  {
    AfterSplits(p, script[..start], script[start..next], c);
    assert script[..start] + script[start..next] == script[..next];
  }

  /** The delivery that ended a session, and what the run did next. */
  lemma {:induction false} LastOfSession(p: Progress, script: seq<Delivery>, next: nat, c: Settings)
    requires 1 <= next <= |script|
    requires After(p, script[..next - 1], c).outcome.None?
        && EndsSession(After(p, script[..next - 1], c), script[next - 1], c)
    ensures After(p, script[..next], c)
        == SessionEnded(Delivered(After(p, script[..next - 1], c), script[next - 1], c).0, script[next - 1])
    ensures ConsumedBy(p, script[..next], c) == next
  {
    hide Delivered, SessionEnded;
    assert script[..next][..next - 1] == script[..next - 1];
  }

  /** What the flush and the delivery decide at the end of a session. */
  lemma HowItEnded(p: Progress, d: Delivery)
    ensures var q := SessionEnded(p, d);
            && (FlushRaises(p) ==> q == Flushed(p).(outcome := Some(Crashed)))
            && (!FlushRaises(p) && d.arrival.Cancelled? ==> q == Flushed(p).(outcome := Some(WasCancelled)))
            && (!FlushRaises(p) && !d.arrival.Cancelled? && d.stopRequested
                ==> q == Flushed(p).(outcome := Some(Finished)))
            && (!FlushRaises(p) && !d.arrival.Cancelled? && !d.stopRequested ==>
                  q == Flushed(p).(sessions := Flushed(p).sessions + [d.longLived],
                                   outcome := match d.pause
                                              case Undisturbed => None
                                              case StopInPause => Some(Finished)
                                              case CancelledInPause => Some(WasCancelled)))
  {
  }

  /** Once a run has its outcome, later deliveries are not answered. */
  lemma {:induction false} OutcomeIsFinal(p: Progress, script: seq<Delivery>, n: nat, c: Settings)
    requires n <= |script| && After(p, script[..n], c).outcome.Some? && ConsumedBy(p, script[..n], c) == n
    ensures After(p, script, c) == After(p, script[..n], c) && ConsumedBy(p, script, c) == n
  {
    if n == |script| {
      assert script[..n] == script;
    } else {
      var front := script[..|script| - 1];
      assert front[..n] == script[..n];
      OutcomeIsFinal(p, front, n, c);
    }
  }

  lemma FramesSplit(script: seq<Delivery>, start: nat, next: nat)
    requires start <= next <= |script|
    ensures FramesIn(script[..next]) == FramesIn(script[..start]) + FramesIn(script[start..next])
  {
    FramesConcat(script[..start], script[start..next]);
    assert script[..start] + script[start..next] == script[..next];
  }

  lemma {:induction false} FramesConcat(a: seq<Delivery>, b: seq<Delivery>)
    ensures FramesIn(a + b) == FramesIn(a) + FramesIn(b)
  {
    if b == [] {
      assert a + b == a;
    } else {
      FramesConcat(a, b[..|b| - 1]);
      assert (a + b)[..|a + b| - 1] == a + b[..|b| - 1];
    }
  }

  lemma {:induction false} BatchStep(batches: seq<seq<Event>>, batch: seq<Event>)
    ensures Joined(batches + [batch]) == Joined(batches) + batch
    ensures Taken(batches + [batch]) == Taken(batches) + (if AllInCalendar(batch) then batch else [])
  {
    assert (batches + [batch])[..|batches|] == batches;
  }

  lemma {:induction false} TakenRows(before: Directories, after: Directories, initial: Directories, taken: seq<Event>,
                                     batch: seq<Event>)
    requires forall day: int :: Rows(before, day) == Rows(initial, day) + OnDay(taken, day)
    requires forall day: int :: Rows(after, day) == Rows(before, day) + OnDay(batch, day)
    ensures forall day: int :: Rows(after, day) == Rows(initial, day) + OnDay(taken + batch, day)
  {
    hide Rows, OnDay;
    forall day: int ensures Rows(after, day) == Rows(initial, day) + OnDay(taken + batch, day) {
      OnDayConcat(taken, batch, day);
    }
  }

  // ----- what holds of every run ----------------------------------------------------------------

  /** At every loop head the buffer is empty or below the limit, once it was. */
  ghost predicate BelowLimit(p: Progress, c: Settings) {
    p.buffer == [] || |p.buffer| < c.flushMaxEvents
  }

  lemma {:induction false} LoopHeadIsBelowLimit(p: Progress, script: seq<Delivery>, c: Settings)
    requires BelowLimit(p, c)
    ensures BelowLimit(After(p, script, c), c)
  {
    hide AllInCalendar, Fresh, Raises;
    if script != [] {
      LoopHeadIsBelowLimit(p, script[..|script| - 1], c);
    }
  }

  /** Every reconnect pause begins with an empty buffer: nothing is carried across one. */
  lemma {:induction false} NothingCarriedAcross(p: Progress, script: seq<Delivery>, d: Delivery, c: Settings)
    requires After(p, script, c).outcome.None? && EndsSession(After(p, script, c), d, c)
    ensures After(p, script + [d], c).buffer == []
  {
    AfterStep(p, script, d, c);
  }

  /** A run crashes only over a batch with a trade time that has no date; a run over frames whose
      trade times all have one never does. */
  lemma {:induction false} OnlyBadTimesCrash(p: Progress, stopped: bool, script: seq<Delivery>, c: Settings)
    requires p.outcome.None? && p.accepted == Joined(p.batches) + p.buffer
    ensures var q := Whole(p, stopped, script, c);
            && q.accepted == Joined(q.batches) && q.buffer == []
            && (q.outcome == Some(Crashed) ==> q.batches != [] && !AllInCalendar(q.batches[|q.batches| - 1]))
            && (q.outcome == Some(Crashed) ==> !AllInCalendar(q.accepted))
  {
    hide AllInCalendar, After, Fresh, Joined;
    if !stopped { CrashesBehind(p, script, c); }
    var last := if stopped then p else After(p, script, c);
    BatchStep(last.batches, last.buffer);
    CalendarSplits(Joined(last.batches), last.buffer);
    if last.outcome.Some? { assert last.accepted == Joined(last.batches) + []; }
    if last.buffer == [] { EmptyInCalendar(); }
  }

  /** What a new collector has done. */
  const START := Progress([], [], [], [], None)

  predicate DrawnFrom(script: seq<Delivery>, frames: seq<Frame>) {
    forall f :: f in FramesIn(script) ==> f in frames
  }

  /** No run over frames of the list crashes exactly if every batch is flushed as soon as it has an
      event, so that an error of the store only ends a session, or every trade time has a date. */
  lemma NeverCrashesIff(frames: seq<Frame>, c: Settings)
    ensures (forall script, stopped :: DrawnFrom(script, frames) ==>
               Whole(START, stopped, script, c).outcome != Some(Crashed))
       <==> c.flushMaxEvents <= 1 || (forall f :: f in frames && EventOf(f).Some? ==> InCalendar(EventOf(f).value))
  {
    hide Whole, InCalendar, EventOf, FramesIn;
    if c.flushMaxEvents <= 1 {
      forall script, stopped ensures Whole(START, stopped, script, c).outcome != Some(Crashed) {
        EagerFlushNeverCrashes(stopped, script, c);
      }
    } else if f :| f in frames && EventOf(f).Some? && !InCalendar(EventOf(f).value) {
      CrashOver(f, c);
      var script := CrashScript(f);
      assert DrawnFrom(script, frames);
      assert Whole(START, false, script, c).outcome == Some(Crashed);
    } else {
      forall script, stopped | DrawnFrom(script, frames)
        ensures Whole(START, stopped, script, c).outcome != Some(Crashed)
      {
        DatedFramesNeverCrash(stopped, script, c);
      }
    }
  }

  function Arriving(f: Frame): Delivery {
    Delivery(Message(f), false, false, Undisturbed)
  }

  /** The event arrives and the connection drops. */
  function CrashScript(f: Frame): seq<Delivery> {
    [Arriving(f), Delivery(Dropped, false, false, Undisturbed)]
  }

  lemma CrashOver(f: Frame, c: Settings)
    requires 1 < c.flushMaxEvents && EventOf(f).Some? && !InCalendar(EventOf(f).value)
    ensures FramesIn(CrashScript(f)) == [f]
    ensures Whole(START, false, CrashScript(f), c).outcome == Some(Crashed)
  {
    hide InCalendar, ParseForceOrder;
    var first, last := CrashScript(f)[0], CrashScript(f)[1];
    assert CrashScript(f) == ([] + [first]) + [last];
    AfterStep(START, [], first, c);
    AfterStep(START, [] + [first], last, c);
    FramesInStep([], first);
    FramesInStep([] + [first], last);
    assert EventOf(f).value in [EventOf(f).value];
  }

  lemma EagerFlushNeverCrashes(stopped: bool, script: seq<Delivery>, c: Settings)
    requires c.flushMaxEvents <= 1
    ensures Whole(START, stopped, script, c).outcome != Some(Crashed)
  {
    hide After;
    NothingRefused(script, c);
    EmptyInCalendar();
  }

  lemma {:induction false} NothingRefused(script: seq<Delivery>, c: Settings)
    requires c.flushMaxEvents <= 1
    ensures After(START, script, c).buffer == [] && After(START, script, c).outcome != Some(Crashed)
  {
    hide ParseForceOrder, InCalendar, Suffix, Keys;
    if script != [] {
      NothingRefused(script[..|script| - 1], c);
    }
  }

  lemma {:induction false} DatedFramesNeverCrash(stopped: bool, script: seq<Delivery>, c: Settings)
    requires forall f :: f in FramesIn(script) && EventOf(f).Some? ==> InCalendar(EventOf(f).value)
    ensures Whole(START, stopped, script, c).outcome != Some(Crashed)
  {
    hide After, InCalendar, EventOf, FramesIn;
    AcceptedAreDelivered(script, c);
    OnlyBadTimesCrash(START, stopped, script, c);
    assert AllInCalendar(After(START, script, c).accepted);
  }

  lemma {:induction false} AcceptedAreDelivered(script: seq<Delivery>, c: Settings)
    ensures forall e :: e in After(START, script, c).accepted ==>
              exists f :: f in FramesIn(script) && EventOf(f) == Some(e)
  {
    hide EventOf, AllInCalendar, Raises, Suffix, Keys;
    if script != [] {
      var front, last := script[..|script| - 1], script[|script| - 1];
      AcceptedAreDelivered(front, c);
      forall e | e in After(START, script, c).accepted
        ensures exists f :: f in FramesIn(script) && EventOf(f) == Some(e)
      {
        if e in After(START, front, c).accepted {
          var f :| f in FramesIn(front) && EventOf(f) == Some(e);
          assert f in FramesIn(script);
        } else {
          assert last.arrival.frame in FramesIn(script);
        }
      }
    }
  }

  /** What the arrival of a new event does. */
  lemma EventArrives(p: Progress, f: Frame, c: Settings)
    requires p.outcome.None? && EventOf(f).Some? && EventOf(f).value.DedupKey() !in Keys(p.accepted)
    ensures var e := EventOf(f).value;
            var q := p.(buffer := p.buffer + [e], accepted := p.accepted + [e]);
            && (|q.buffer| < c.flushMaxEvents ==> Step(p, Arriving(f), c) == q)
            && (|q.buffer| >= c.flushMaxEvents ==> Step(p, Arriving(f), c).batches == p.batches + [q.buffer])
  {
    hide ParseForceOrder, AllInCalendar, Keys;
    assert Fresh(p.accepted, f, c) == EventOf(f);
  }

  /** A refused batch takes its well-dated events with it: with batches of two, an event whose trade
      time has no date costs the one delivered before it. */
  lemma {:induction false} DatedNeighbourIsLost(good: Frame, bad: Frame, c: Settings)
    requires c.flushMaxEvents == 2 && EventOf(good).Some? && EventOf(bad).Some?
    requires InCalendar(EventOf(good).value) && !InCalendar(EventOf(bad).value)
    ensures var batches := After(START, [Arriving(good), Arriving(bad)], c).batches;
            && batches == [[EventOf(good).value, EventOf(bad).value]]
            && !InWholeBatch(batches, EventOf(good).value.DedupKey())
  {
    hide EventOf, Step, Arriving;
    var first, last := Arriving(good), Arriving(bad);
    assert [first, last] == ([] + [first]) + [last];
    AfterStep(START, [], first, c);
    AfterStep(START, [] + [first], last, c);
    var e, undated := EventOf(good).value, EventOf(bad).value;
    assert Keys([]) == [];
    assert Keys([] + [e]) == [e.DedupKey()];
    EventArrives(START, good, c);
    EventArrives(START.(buffer := [] + [e], accepted := [] + [e]), bad, c);
    assert [] + [e] + [undated] == [e, undated];
    assert undated in [e, undated];
  }

  /** A long of one unit liquidated at the given time. */
  function UnitLiquidation(tradeTimeMs: int): Event {
    Event("BTCUSDT", tradeTimeMs, 0, Sell, Long, Finite(1.0), Finite(1.0), Finite(1.0))
  }

  /** Two messages at which this happens: one traded at the epoch, the next after the year 9999. */
  lemma {:induction false} NeighbourLossExample(c: Settings)
    requires c.flushMaxEvents == 2
    ensures var good, bad := UnitLiquidation(0), UnitLiquidation((LAST_DAY + 1) * DAY_MS);
            var frames := [MessageFor(good, false, Finite(1.0), true), MessageFor(bad, false, Finite(1.0), true)];
            var script := [Arriving(frames[0]), Arriving(frames[1])];
            var batches := After(START, script, c).batches;
            batches == [[good, bad]] && InCalendar(good) && !InWholeBatch(batches, good.DedupKey())
  {
    var good, bad := UnitLiquidation(0), UnitLiquidation((LAST_DAY + 1) * DAY_MS);
    ParseInvertsMessage(good, false, Finite(1.0), true);
    ParseInvertsMessage(bad, false, Finite(1.0), true);
    hide EventOf, MessageFor, After, InWholeBatch;
    DatedNeighbourIsLost(MessageFor(good, false, Finite(1.0), true), MessageFor(bad, false, Finite(1.0), true), c);
  }

  // ----- what each delivery must do -------------------------------------------------------------

  lemma {:induction false} BatchesOnlyGrow(p: Progress, script: seq<Delivery>, c: Settings)
    ensures p.batches <= After(p, script, c).batches
  {
    hide Step;
    if script != [] {
      var front, last := script[..|script| - 1], script[|script| - 1];
      BatchesOnlyGrow(p, front, c);
      StepOnlyAdds(After(p, front, c), last, c);
    }
  }

  lemma StepOnlyAdds(p: Progress, d: Delivery, c: Settings)
    ensures p.batches <= Step(p, d, c).batches
    ensures p.outcome.None? ==>
              Step(p, d, c).accepted == (match d.arrival
                                         case Message(frame) => Handled(p, frame, c).accepted
                                         case _ => p.accepted)
  {
    hide AllInCalendar, Fresh, Raises;
  }

  lemma {:induction false} JoinedConcat(a: seq<seq<Event>>, b: seq<seq<Event>>)
    ensures Joined(a + b) == Joined(a) + Joined(b)
  {
    if b == [] {
      assert a + b == a;
    } else {
      JoinedConcat(a, b[..|b| - 1]);
      assert (a + b)[..|a + b| - 1] == a + b[..|b| - 1];
    }
  }

  /** A silence saves what was buffered: every event accepted by then is in the batches of that moment,
      no later event joins one of those, and if what was buffered is dated, nothing that follows,
      refused batches and crashes included, takes it out of what the store has. */
  lemma {:induction false} SilenceSaves(p: Progress, script: seq<Delivery>, d: Delivery, rest: seq<Delivery>,
                                        c: Settings)
    requires p.outcome.None? && p.accepted == Joined(p.batches) + p.buffer
    requires d.arrival.Silence? && After(p, script, c).outcome.None?
    ensures var before, at := After(p, script, c), After(p, script + [d], c);
            var end := Whole(p, false, script + [d] + rest, c);
            && at.buffer == [] && at.accepted == before.accepted == Joined(at.batches) && at.batches <= end.batches
            && end.accepted == at.accepted + Joined(end.batches[|at.batches|..])
            && (AllInCalendar(before.buffer) ==>
                  forall k :: HasKey(before.buffer, k) ==> InWholeBatch(end.batches, k))
  {
    hide After, AllInCalendar, Joined, HasKey;
    var before, at := After(p, script, c), After(p, script + [d], c);
    var end := Whole(p, false, script + [d] + rest, c);
    CrashesBehind(p, script, c);
    AfterStep(p, script, d, c);
    BatchStep(before.batches, before.buffer);
    AfterSplits(p, script + [d], rest, c);
    BatchesOnlyGrow(at, rest, c);
    OnlyBadTimesCrash(p, false, script + [d] + rest, c);
    JoinedConcat(at.batches, end.batches[|at.batches|..]);
    assert end.batches == at.batches + end.batches[|at.batches|..];
    if before.buffer != [] {
      assert before.buffer == at.batches[|before.batches|] == end.batches[|before.batches|];
    }
    NoKeys();
  }

  /** So a read finds it, whatever came after. */
  lemma {:induction false} SilencedIsReadable(c: LiquidationCollector, script: seq<Delivery>, d: Delivery,
                                              rest: seq<Delivery>, k: Key)
    requires c.Valid() && c.batches == Whole(START, false, script + [d] + rest, c.settings).batches
    requires d.arrival.Silence? && After(START, script, c.settings).outcome.None?
    requires AllInCalendar(After(START, script, c.settings).buffer)
        && HasKey(After(START, script, c.settings).buffer, k)
    ensures Readable(c.store.dirs, k)
  {
    hide *;
    NothingAccepted();
    SilenceSaves(START, script, d, rest, c.settings);
    ReadBackIsExact(c, k.tradeTimeMs, k.tradeTimeMs);
    ReadsAround(c.store.dirs, k);
  }

  lemma NothingAccepted()
    ensures START.outcome.None? && START.accepted == Joined(START.batches) + START.buffer
  {
  }

  lemma ReadsAround(dirs: Directories, k: Key)
    ensures Readable(dirs, k) <==> HasKey(WindowEvents(dirs, k.tradeTimeMs, k.tradeTimeMs), k)
    ensures InWindow(k, k.tradeTimeMs, k.tradeTimeMs)
  {
    hide WindowEvents, HasKey;
  }

  /** While frames stream in, batches are cut at the flush limit and nowhere else. */
  lemma {:induction false} StreamFillsBatches(script: seq<Delivery>, c: Settings)
    requires forall d :: d in script ==> d.arrival.Message? && !Raises(d.arrival.frame) && !d.stopRequested
    ensures var size := if c.flushMaxEvents < 1 then 1 else c.flushMaxEvents;
            && |After(START, script, c).buffer| < size
            && forall b :: b in After(START, script, c).batches ==> |b| == size
  {
    hide AllInCalendar, Fresh, Raises;
    if script != [] {
      StreamFillsBatches(script[..|script| - 1], c);
      assert script[|script| - 1] in script;
    }
  }

  /** The dedup memory, exactly: a well-formed frame is accepted if and only if its key is not one of the
      last `dedupMemory` accepted ones; no other frame changes what is accepted. */
  lemma {:induction false} AcceptedIff(script: seq<Delivery>, d: Delivery, c: Settings)
    requires After(START, script, c).outcome.None? && d.arrival.Message?
    ensures var before, after := After(START, script, c).accepted, After(START, script + [d], c).accepted;
            if EventOf(d.arrival.frame).None? then after == before
            else
              var e := EventOf(d.arrival.frame).value;
              if exists i :: 0 <= i < |before| && |before| - c.dedupMemory <= i && before[i].DedupKey() == e.DedupKey()
              then after == before else after == before + [e]
  {
    AfterStep(START, script, d, c);
    StepOnlyAdds(After(START, script, c), d, c);
    hide After, Step, EventOf;
    var before := After(START, script, c).accepted;
    if EventOf(d.arrival.frame).Some? { InWindowIff(before, EventOf(d.arrival.frame).value.DedupKey(), c); }
    hide Suffix, Keys;
  }

  lemma InWindowIff(accepted: seq<Event>, k: Key, c: Settings)
    ensures k in Suffix(Keys(accepted), c.Window())
       <==> exists i :: 0 <= i < |accepted| && |accepted| - c.dedupMemory <= i && accepted[i].DedupKey() == k
  {
    var all, kept := Keys(accepted), Suffix(Keys(accepted), c.Window());
    var gone := |all| - |kept|;
    forall i | 0 <= i < |kept| ensures kept[i] == accepted[gone + i].DedupKey() {
      assert kept[i] == all[gone + i];
    }
    if i :| 0 <= i < |accepted| && |accepted| - c.dedupMemory <= i && accepted[i].DedupKey() == k {
      assert kept[i - gone] == k;
    }
  }

  /** How a run that nothing ended is closed: what is still buffered is one last batch, and the run
      crashes if that is refused, and is cancelled otherwise; with a stop requested before it began, it
      receives nothing and returns. */
  lemma {:induction false} LastFlushDecides(script: seq<Delivery>, c: Settings)
    requires After(START, script, c).outcome.None?
    ensures var before, end := After(START, script, c), Whole(START, false, script, c);
            && end.batches == before.batches + (if before.buffer == [] then [] else [before.buffer])
            && end.sessions == before.sessions
            && end.outcome == Some(if forall e :: e in before.buffer ==> InCalendar(e) then WasCancelled else Crashed)
    ensures Whole(START, true, script, c) == START.(outcome := Some(Finished))
  {
    hide After, InCalendar;
  }

  /** The delivery ends its session without a refused batch. */
  predicate Disconnects(d: Delivery) {
    d.arrival.Dropped? || d.arrival.Cancelled? || d.stopRequested || (d.arrival.Message? && Raises(d.arrival.frame))
  }

  /** It asks for the end of the run: cancelled or stopped while waiting, or in the pause after it. */
  predicate EndsRun(d: Delivery) {
    d.arrival.Cancelled? || d.stopRequested || (Disconnects(d) && !d.pause.Undisturbed?)
  }

  predicate FramesDated(script: seq<Delivery>) {
    forall f :: f in FramesIn(script) && EventOf(f).Some? ==> InCalendar(EventOf(f).value)
  }

  /** Whether each reconnect of the script follows a long-lived session. */
  function Reconnects(script: seq<Delivery>): seq<bool> {
    if script == [] then []
    else Reconnects(script[..|script| - 1])
         + (if Disconnects(script[|script| - 1]) then [script[|script| - 1].longLived] else [])
  }

  /** Over dated frames nothing else ends a run: as long as no delivery asks for it, every delivery is
      answered and every disconnect followed by a reconnect. */
  lemma {:induction false} RunsUntilAsked(script: seq<Delivery>, c: Settings)
    requires FramesDated(script) && forall d :: d in script ==> !EndsRun(d)
    ensures After(START, script, c).outcome == None && ConsumedBy(START, script, c) == |script|
    ensures After(START, script, c).sessions == Reconnects(script)
  {
    hide FramesDated, EndsRun, Step, InCalendar, Disconnects;
    if script != [] {
      var n := |script| - 1;
      DatedPrefix(script);
      assert script[n] in script;
      RunsUntilAsked(script[..n], c);
      DatedBuffer(script[..n], c);
      DatedStep(After(START, script[..n], c), script[n], c);
    }
  }

  /** And the first delivery that asks for the end of the run ends it. */
  lemma {:induction false} EndsWhenAsked(script: seq<Delivery>, i: nat, c: Settings)
    requires FramesDated(script) && i < |script| && EndsRun(script[i]) && forall j :: 0 <= j < i ==> !EndsRun(script[j])
    ensures ConsumedBy(START, script, c) == i + 1
    ensures var d := script[i];
            After(START, script, c).outcome
            == Some(if d.arrival.Cancelled? || (!d.stopRequested && d.pause.CancelledInPause?)
                    then WasCancelled else Finished)
  {
    hide EndsRun, Step, FramesDated;
    var upTo := script[..i + 1];
    assert upTo[..i] == script[..i];
    DatedUpTo(script, i + 1);
    DatedPrefix(upTo);
    RunsUntilAsked(script[..i], c);
    DatedBuffer(script[..i], c);
    DatedStep(After(START, script[..i], c), script[i], c);
    OutcomeIsFinal(START, script, i + 1, c);
  }

  lemma DatedUpTo(script: seq<Delivery>, n: nat)
    requires n <= |script| && FramesDated(script)
    ensures FramesDated(script[..n])
  {
    hide EventOf, InCalendar, FramesIn;
    FramesSplit(script, n, |script|);
    assert script[..|script|] == script;
  }

  lemma DatedPrefix(script: seq<Delivery>)
    requires script != [] && FramesDated(script)
    ensures FramesDated(script[..|script| - 1])
    ensures var d := script[|script| - 1];
            d.arrival.Message? && EventOf(d.arrival.frame).Some? ==> InCalendar(EventOf(d.arrival.frame).value)
  {
    hide EventOf, InCalendar;
    var d := script[|script| - 1];
    if d.arrival.Message? { assert d.arrival.frame in FramesIn(script); }
    assert forall f :: f in FramesIn(script[..|script| - 1]) ==> f in FramesIn(script);
  }

  lemma {:induction false} DatedBuffer(script: seq<Delivery>, c: Settings)
    requires FramesDated(script)
    ensures AllInCalendar(After(START, script, c).buffer)
  {
    hide EventOf, InCalendar, Raises, FramesDated, Suffix, Keys;
    if script != [] {
      DatedPrefix(script);
      DatedBuffer(script[..|script| - 1], c);
    }
  }

  lemma DatedStep(p: Progress, d: Delivery, c: Settings)
    requires p.outcome.None? && AllInCalendar(p.buffer)
    requires d.arrival.Message? && EventOf(d.arrival.frame).Some? ==> InCalendar(EventOf(d.arrival.frame).value)
    ensures var q := Step(p, d, c);
            && q.outcome == (if !EndsRun(d) then None
                             else Some(if d.arrival.Cancelled? || (!d.stopRequested && d.pause.CancelledInPause?)
                                       then WasCancelled else Finished))
            && (!EndsRun(d) ==> q.sessions == p.sessions + if Disconnects(d) then [d.longLived] else [])
  {
    hide EventOf, InCalendar, Raises, Suffix, Keys;
  }

  lemma FlushNothing(p: Progress)
    requires p.buffer == []
    ensures Flushed(p) == p && !FlushRaises(p)
  {
  }

  lemma EmptyInCalendar()
    ensures AllInCalendar([])
  {
  }

  lemma CalendarSplits(a: seq<Event>, b: seq<Event>)
    ensures AllInCalendar(a + b) <==> AllInCalendar(a) && AllInCalendar(b)
  {
    hide InCalendar;
    assert forall e :: e in a + b <==> e in a || e in b;
  }

  /** What the steps keep of the batches, and why a crash has happened. */
  ghost predicate Accountable(p: Progress) {
    && p.accepted == Joined(p.batches) + p.buffer
    && (p.outcome.Some? ==> p.buffer == [])
    && (p.outcome == Some(Crashed)
        ==> p.batches != [] && !AllInCalendar(p.batches[|p.batches| - 1]) && !AllInCalendar(p.accepted))
  }

  lemma {:induction false} CrashesBehind(p: Progress, script: seq<Delivery>, c: Settings)
    requires p.outcome.None? && p.accepted == Joined(p.batches) + p.buffer
    ensures Accountable(After(p, script, c))
  {
    hide Accountable, Step;
    if script == [] {
      StartsAccountable(p);
    } else {
      CrashesBehind(p, script[..|script| - 1], c);
      StepAccountable(After(p, script[..|script| - 1], c), script[|script| - 1], c);
    }
  }

  lemma StartsAccountable(p: Progress)
    requires p.outcome.None? && p.accepted == Joined(p.batches) + p.buffer
    ensures Accountable(p)
  {
  }

  lemma StepAccountable(p: Progress, d: Delivery, c: Settings)
    requires Accountable(p)
    ensures Accountable(Step(p, d, c))
  {
    hide AllInCalendar, Joined, Flushed, Raises, Handled;
    if p.outcome.None? {
      DeliveredAccountable(p, d, c);
      FlushAccountable(Delivered(p, d, c).0);
    }
  }

  lemma FlushAccountable(p: Progress)
    requires Accountable(p) && p.outcome.None?
    ensures Accountable(Flushed(p)) && Flushed(p).outcome.None? && Flushed(p).buffer == []
    ensures FlushRaises(p) ==>
              var q := Flushed(p);
              q.batches != [] && !AllInCalendar(q.batches[|q.batches| - 1]) && !AllInCalendar(q.accepted)
  {
    hide AllInCalendar, Joined;
    BatchStep(p.batches, p.buffer);
    CalendarSplits(Joined(p.batches), p.buffer);
    EmptyInCalendar();
    assert Joined(p.batches + [p.buffer]) + [] == Joined(p.batches) + p.buffer;
  }

  lemma DeliveredAccountable(p: Progress, d: Delivery, c: Settings)
    requires Accountable(p) && p.outcome.None?
    ensures Accountable(Delivered(p, d, c).0) && Delivered(p, d, c).0.outcome.None?
  {
    hide AllInCalendar, Joined, Raises, Flushed, Fresh;
    match d.arrival
    case Dropped =>
    case Cancelled =>
    case Silence => FlushAccountable(p);
    case Message(frame) =>
      var q := Handled(p, frame, c);
      if Fresh(p.accepted, frame, c).Some? {
        var e := Fresh(p.accepted, frame, c).value;
        assert (Joined(p.batches) + p.buffer) + [e] == Joined(p.batches) + (p.buffer + [e]);
      }
      FlushAccountable(q);
  }

  // ----- reconnect pauses -------------------------------------------------------------------

  /** The next pause of a flapping connection. */
  function Grown(delay: real, factor: real, max: real): real {
    if delay * factor > max then max else delay * factor
  }

  /** The backoff variable after the given reconnects. */
  function BackoffAfter(reconnects: seq<bool>, initial: real, max: real, factor: real): real
    decreases |reconnects|, 1
  {
    if reconnects == [] then initial else Grown(LastPause(reconnects, initial, max, factor), factor, max)
  }

  /** The pause before the last reconnect: the initial one after a long-lived session. */
  function LastPause(reconnects: seq<bool>, initial: real, max: real, factor: real): real
    requires reconnects != []
    decreases |reconnects|, 0
  {
    if reconnects[|reconnects| - 1] then initial
    else BackoffAfter(reconnects[..|reconnects| - 1], initial, max, factor)
  }

  function Delays(reconnects: seq<bool>, initial: real, max: real, factor: real): (delays: seq<real>)
    ensures |delays| == |reconnects|
  {
    if reconnects == [] then []
    else Delays(reconnects[..|reconnects| - 1], initial, max, factor) + [LastPause(reconnects, initial, max, factor)]
  }

  lemma {:induction false} DelayAt(reconnects: seq<bool>, i: nat, initial: real, max: real, factor: real)
    requires i < |reconnects|
    ensures Delays(reconnects, initial, max, factor)[i] == LastPause(reconnects[..i + 1], initial, max, factor)
    decreases reconnects
  {
    var front := reconnects[..|reconnects| - 1];
    if i < |front| {
      DelayAt(front, i, initial, max, factor);
      assert front[..i + 1] == reconnects[..i + 1];
    } else {
      assert reconnects[..i + 1] == reconnects;
    }
  }

  /** Reconnect pauses: a flap multiplies the pause up to the cap, a long-lived session resets it,
      and no pause exceeds the cap. */
  lemma {:induction false} PausesEscalate(reconnects: seq<bool>, i: nat, initial: real, max: real, factor: real)
    requires i < |reconnects| && initial <= max
    ensures var d := Delays(reconnects, initial, max, factor);
            && d[i] <= max
            && (reconnects[i] || i == 0 ==> d[i] == initial)
            && (!reconnects[i] && 0 < i ==> d[i] == if d[i - 1] * factor <= max then d[i - 1] * factor else max)
            && (!reconnects[i] && 0 < i && 0.0 <= d[i - 1] && 1.0 <= factor ==> d[i - 1] <= d[i])
  {
    hide Grown;
    DelayAt(reconnects, i, initial, max, factor);
    var upTo := reconnects[..i + 1];
    assert upTo[..i] == reconnects[..i];
    if 0 < i {
      PausesEscalate(reconnects, i - 1, initial, max, factor);
      DelayAt(reconnects, i - 1, initial, max, factor);
      var d := Delays(reconnects, initial, max, factor)[i - 1];
      GrownBounds(d, factor, max);
    }
  }

  lemma GrownBounds(d: real, factor: real, max: real)
    ensures Grown(d, factor, max) == (if d * factor <= max then d * factor else max) <= max
    ensures 0.0 <= d <= max && 1.0 <= factor ==> d <= Grown(d, factor, max)
  {
    if 0.0 <= d && 1.0 <= factor { assert 0.0 <= d * (factor - 1.0); }
  }

  lemma NoPauses(c: Settings)
    ensures Delays([], c.backoffInitial, c.backoffMax, c.backoffFactor) == []
    ensures BackoffAfter([], c.backoffInitial, c.backoffMax, c.backoffFactor) == c.backoffInitial
  {
  }

  lemma {:induction false} PauseStep(before: seq<bool>, longLived: bool, initial: real, max: real, factor: real)
    ensures var delay := if longLived then initial else BackoffAfter(before, initial, max, factor);
            && Delays(before + [longLived], initial, max, factor) == Delays(before, initial, max, factor) + [delay]
            && BackoffAfter(before + [longLived], initial, max, factor) == Grown(delay, factor, max)
  {
    hide Grown;
    assert (before + [longLived])[..|before|] == before;
  }

  // ----- the dedup window and the keys ----------------------------------------------------------

  lemma FramesInNone()
    ensures FramesIn([]) == []
  {
  }

  lemma {:induction false} FramesInStep(script: seq<Delivery>, d: Delivery)
    ensures FramesIn(script + [d]) == FramesIn(script) + (if d.arrival.Message? then [d.arrival.frame] else [])
  {
    assert (script + [d])[..|script|] == script;
  }

  lemma FramesStep(frames: seq<Frame>, f: Frame)
    ensures forall k :: FramesHaveKey(frames + [f], k)
                   <==> FramesHaveKey(frames, k) || (EventOf(f).Some? && EventOf(f).value.DedupKey() == k)
  {
    forall k
      ensures FramesHaveKey(frames + [f], k)
         <==> FramesHaveKey(frames, k) || (EventOf(f).Some? && EventOf(f).value.DedupKey() == k)
    {
      if FramesHaveKey(frames, k) {
        var g :| g in frames && EventOf(g).Some? && EventOf(g).value.DedupKey() == k;
        assert g in frames + [f];
      }
      if EventOf(f).Some? && EventOf(f).value.DedupKey() == k {
        assert f in frames + [f];
      }
    }
  }

  lemma AcceptStep(accepted: seq<Event>, e: Event)
    ensures forall k :: HasKey(accepted + [e], k) <==> HasKey(accepted, k) || e.DedupKey() == k
    ensures Keys(accepted + [e]) == Keys(accepted) + [e.DedupKey()]
  {
    forall k ensures HasKey(accepted + [e], k) <==> HasKey(accepted, k) || e.DedupKey() == k {
      if HasKey(accepted, k) {
        var a :| a in accepted && a.DedupKey() == k;
        assert a in accepted + [e];
      }
      if e.DedupKey() == k { assert e in accepted + [e]; }
    }
  }

  lemma KeptKeysWereAccepted(accepted: seq<Event>, order: seq<Key>, window: nat, key: Key)
    requires order == Suffix(Keys(accepted), window) && key in order
    ensures HasKey(accepted, key)
  {
    var i :| 0 <= i < |order| && order[i] == key;
    var j := i + |accepted| - |order|;
    assert Keys(accepted)[j] == key;
    assert accepted[j] in accepted;
  }

  lemma DropFirst<T>(s: seq<T>)
    requires NoRepeats(s) && s != []
    ensures NoRepeats(s[1..])
    ensures forall y :: y in s[1..] <==> y in s && y != s[0]
  {
    assert s == [s[0]] + s[1..];
    forall y | y in s[1..] ensures y != s[0] {
      var i :| 0 <= i < |s[1..]| && s[1..][i] == y;
      assert s[i + 1] == y;
    }
  }

  function EvictOldest<T>(s: seq<T>, memory: int): seq<T>
    requires s != []
  {
    if |s| > memory then s[1..] else s
  }

  /** Appending a new key and evicting the oldest keeps the window of the last n. */
  lemma WindowStep(accepted: seq<Event>, e: Event, order: seq<Key>, n: nat, order': seq<Key>)
    requires order == Suffix(Keys(accepted), n)
    requires order' == EvictOldest(order + [e.DedupKey()], n)
    ensures order' == Suffix(Keys(accepted + [e]), n)
  {
    AcceptStep(accepted, e);
  }

  // ----- end to end -----------------------------------------------------------------------------

  /** Some batch the store took holds the key. */
  lemma {:induction false} TakenKeys(batches: seq<seq<Event>>)
    ensures forall k :: HasKey(Taken(batches), k) <==> InWholeBatch(batches, k)
  {
    hide AllInCalendar, HasKey;
    if batches == [] {
      NoKeys();
    } else {
      var front, last := batches[..|batches| - 1], batches[|batches| - 1];
      TakenKeys(front);
      assert batches == front + [last];
      forall k ensures HasKey(Taken(batches), k) <==> InWholeBatch(batches, k) {
        KeysConcat(Taken(front), last, k);
        KeysConcat(Taken(front), [], k);
        NoKeys();
        if InWholeBatch(front, k) {
          var b :| b in front && AllInCalendar(b) && HasKey(b, k);
          assert b in batches;
        }
        if AllInCalendar(last) && HasKey(last, k) { assert last in batches; }
      }
    }
  }

  lemma NoKeys()
    ensures forall k :: !HasKey([], k)
  {
  }

  lemma KeysConcat(a: seq<Event>, b: seq<Event>, k: Key)
    ensures HasKey(a + b, k) <==> HasKey(a, k) || HasKey(b, k)
  {
    if HasKey(a, k) {
      var e :| e in a && e.DedupKey() == k;
      assert e in a + b;
    }
    if HasKey(b, k) {
      var e :| e in b && e.DedupKey() == k;
      assert e in a + b;
    }
  }

  lemma {:induction false} TakenInCalendar(batches: seq<seq<Event>>)
    ensures AllInCalendar(Taken(batches))
  {
    hide InCalendar;
    if batches != [] {
      TakenInCalendar(batches[..|batches| - 1]);
    }
  }

  lemma TakenArePartitioned(c: LiquidationCollector)
    requires c.Valid()
    ensures Partitioned(c.store.dirs)
    ensures forall k :: StoredKey(c.store.dirs, k) <==> StoredKey(c.initial, k) || InWholeBatch(c.batches, k)
  {
    hide Rows, OnDay, DayOf, InCalendar, Taken, Joined, HasKey, FramesHaveKey, InWholeBatch;
    var dirs, taken := c.store.dirs, Taken(c.batches);
    TakenInCalendar(c.batches);
    TakenKeys(c.batches);
    forall day: int, e | e in Rows(dirs, day) ensures DayOf(e.tradeTimeMs) == day && InCalendar(e) {
      OnDayElements(taken, day);
      assert Rows(dirs, day) == Rows(c.initial, day) + OnDay(taken, day);
    }
    forall k ensures StoredKey(dirs, k) <==> StoredKey(c.initial, k) || HasKey(taken, k) {
      StoredPlus(dirs, c.initial, taken, k);
    }
  }

  /** At any moment a read gives exactly the keys stored at the start and those of the batches whose
      trade times all have a date, each once and in time order. */
  lemma ReadBackIsExact(c: LiquidationCollector, t0: int, t1: int)
    requires c.Valid() && t0 <= t1
    ensures var r := WindowEvents(c.store.dirs, t0, t1);
            && (forall k :: HasKey(r, k)
                       <==> InWindow(k, t0, t1) && (StoredKey(c.initial, k) || InWholeBatch(c.batches, k)))
            && Pairwise(r, EventLe) && Pairwise(r, DifferentKeys)
  {
    TakenArePartitioned(c);
    WindowIsExact(c.store.dirs, t0, t1);
  }

  /** A read around the trade time finds the key. */
  ghost predicate Readable(dirs: Directories, k: Key) {
    HasKey(WindowEvents(dirs, k.tradeTimeMs, k.tradeTimeMs), k)
  }

  /** Nothing delivered is lost exactly if every well-formed frame had a trade time with a date: then
      reads give exactly what was stored and what the frames carried, whatever the interleaving of
      frames, duplicates, silences and disconnects, and however short the dedup memory. */
  lemma NothingLostIff(c: LiquidationCollector)
    requires c.Valid() && c.buffer == []
    ensures (forall k :: Readable(c.store.dirs, k) <==> StoredKey(c.initial, k) || FramesHaveKey(c.frames, k))
       <==> forall f :: f in c.frames && EventOf(f).Some? ==> InCalendar(EventOf(f).value)
  {
    hide Rows, OnDay, InCalendar, Taken, HasKey, WindowEvents, StoredKey, EventOf;
    TakenArePartitioned(c);
    forall k ensures Readable(c.store.dirs, k) <==> StoredKey(c.store.dirs, k) {
      WindowIsExact(c.store.dirs, k.tradeTimeMs, k.tradeTimeMs);
    }
    if forall f :: f in c.frames && EventOf(f).Some? ==> InCalendar(EventOf(f).value) {
      DatedFramesAreTaken(c);
    } else {
      var f :| f in c.frames && EventOf(f).Some? && !InCalendar(EventOf(f).value);
      UndatedIsNotStored(c.store.dirs, EventOf(f).value);
      assert FramesHaveKey(c.frames, EventOf(f).value.DedupKey());
      UndatedIsNotStored(c.initial, EventOf(f).value);
    }
  }

  lemma DatedFramesAreTaken(c: LiquidationCollector)
    requires c.Valid() && c.buffer == []
    requires forall f :: f in c.frames && EventOf(f).Some? ==> InCalendar(EventOf(f).value)
    ensures forall k :: InWholeBatch(c.batches, k) <==> FramesHaveKey(c.frames, k)
  {
    hide Rows, OnDay, Taken, Joined, EventOf;
    forall e | e in c.accepted ensures InCalendar(e) {
      assert HasKey(c.accepted, e.DedupKey());
      var f :| f in c.frames && EventOf(f).Some? && EventOf(f).value.DedupKey() == e.DedupKey();
    }
    assert c.accepted == Joined(c.batches);
    AllTaken(c.batches);
    TakenKeys(c.batches);
    hide HasKey, FramesHaveKey, InWholeBatch;
  }

  lemma {:induction false} AllTaken(batches: seq<seq<Event>>)
    requires AllInCalendar(Joined(batches))
    ensures Taken(batches) == Joined(batches)
  {
    hide AllInCalendar;
    if batches != [] {
      CalendarSplits(Joined(batches[..|batches| - 1]), batches[|batches| - 1]);
      AllTaken(batches[..|batches| - 1]);
    }
  }

  lemma UndatedIsNotStored(dirs: Directories, e: Event)
    requires Partitioned(dirs) && !InCalendar(e)
    ensures !StoredKey(dirs, e.DedupKey())
  {
    hide Rows, DayOf;
  }
}
