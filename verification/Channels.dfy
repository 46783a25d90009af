/**
 The five research channels: their declared specs and resolvers (research/features/channels.py) and
 their own accessors (funding_rates.py, etf_flows.py, coinbase_prices.py, btc_reference.py and
 xs_rank.py in research/data).
 */
module Channels {
  import opened Wrappers
  import opened Series
  import opened FeatureStore

  const FUNDING_RATE := FeatureSpec("funding_rate", Instant, None, 0)
  const ETF_NET_FLOW := FeatureSpec("etf_net_flow", Interval, Some(DAY_MS), DAY_MS)
  const COINBASE_CLOSE := FeatureSpec("coinbase_close", Interval, Some(HOUR_MS), 0)
  const BTC_THRUST := FeatureSpec("btc_thrust", Interval, Some(HOUR_MS), 0)
  const XS_IN_TOP_K := FeatureSpec("xs_in_top_k", Interval, Some(HOUR_MS), 0)

  // ----- the channels' own accessors ------------------------------------------------------

  function RateAt(s: TimeSeries<real>, ts: int): Option<real>
    requires s.Valid()
  {
    ValueAt(s, ts)
  }

  /** A day's flow is taken as published one day after its date. */
  function NetFlowAt(s: TimeSeries<real>, ts: int): Option<real>
    requires s.Valid()
  {
    ValueAt(s, ts - DAY_MS)
  }

  /** The last bar to have closed; the timestamps are bar opens. */
  function CloseAt(s: TimeSeries<real>, ts: int): Option<real>
    requires s.Valid()
  {
    ValueAt(s, ts - HOUR_MS)
  }

  /** A thrust of None is the NaN of the warm-up. */
  function ThrustAt(s: TimeSeries<Option<real>>, ts: int): Option<real>
    requires s.Valid()
  {
    var v := ValueAt(s, ts - HOUR_MS);
    if v.None? then None else v.value
  }

  function InTopKAt(s: TimeSeries<bool>, ts: int): Option<bool>
    requires s.Valid()
  {
    ValueAt(s, ts)
  }

  // ----- the resolvers ----------------------------------------------------------------------

  function NumberResolver(s: TimeSeries<real>): Resolver
    requires s.Valid()
  {
    (symbol: Option<string>, ts: int) =>
      var i := AtOrBefore(s.times, ts);
      if i.None? then None else Some(Observation(Number(s.values[i.value]), s.times[i.value]))
  }

  function FundingResolver(s: TimeSeries<real>): Resolver
    requires s.Valid()
  {
    NumberResolver(s)
  }

  function EtfFlowResolver(s: TimeSeries<real>): Resolver
    requires s.Valid()
  {
    NumberResolver(s)
  }

  function CoinbaseCloseResolver(s: TimeSeries<real>): Resolver
    requires s.Valid()
  {
    NumberResolver(s)
  }

  function BtcThrustResolver(s: TimeSeries<Option<real>>): Resolver
    requires s.Valid()
  {
    (symbol: Option<string>, ts: int) =>
      var i := AtOrBefore(s.times, ts);
      if i.None? || s.values[i.value].None? then None
      else Some(Observation(Number(s.values[i.value].value), s.times[i.value]))
  }

  function XsRankResolver(s: TimeSeries<bool>): Resolver
    requires s.Valid()
  {
    (symbol: Option<string>, ts: int) =>
      var i := AtOrBefore(s.times, ts);
      if i.None? then None else Some(Observation(Flag(s.values[i.value]), s.times[i.value]))
  }

  // ----- store and accessor agree -------------------------------------------------------------

  /** The latest timestamp at or before ts is younger than `delay`. */
  predicate TooYoung(times: seq<int>, ts: int, delay: int) {
    var i := AtOrBefore(times, ts);
    i.Some? && ts < times[i.value] + delay
  }

  /** When the latest element is at least `required` old, an accessor that waits `enforced`, which
      is no longer, returns that same element. */
  lemma DelayedLookupAgrees<V>(s: TimeSeries<V>, ts: int, enforced: int, required: int)
    requires s.Valid() && 0 <= enforced <= required
    requires AtOrBefore(s.times, ts).Some? && !TooYoung(s.times, ts, required)
    ensures ValueAt(s, ts - enforced) == Some(s.values[AtOrBefore(s.times, ts).value])
  {
    EarlierSameElement(s.times, ts, ts - enforced);
  }

  function AsNumber(v: Option<real>): Option<Value> {
    if v.None? then None else Some(Number(v.value))
  }

  /** Element i is the latest one that began at or before t. */
  ghost predicate IsLatest(times: seq<int>, i: nat, t: int) {
    i < |times| && times[i] <= t && (i == |times| - 1 || t < times[i + 1])
  }

  lemma LookupFindsLatest<V>(s: TimeSeries<V>, t: int)
    requires s.Valid()
    ensures AtOrBefore(s.times, t).None? <==> forall k :: 0 <= k < |s.times| ==> t < s.times[k]
    ensures AtOrBefore(s.times, t).Some? ==> IsLatest(s.times, AtOrBefore(s.times, t).value, t)
    ensures ValueAt(s, t).None? <==> forall k :: 0 <= k < |s.times| ==> t < s.times[k]
    ensures forall i: nat :: IsLatest(s.times, i, t) ==> ValueAt(s, t) == Some(s.values[i])
  {
    BisectSplits(s.times, t);
    var p := BisectRight(s.times, t);
    assert 0 < p ==> s.times[p - 1] <= t;
    hide BisectRight;
  }

  /** What each accessor answers: the latest element that is old enough by its own delay (none for funding
      and rank, an hour for closes and thrust, a day for flows), and nothing if there is none. */
  lemma AccessorsWait(reals: TimeSeries<real>, thrust: TimeSeries<Option<real>>, rank: TimeSeries<bool>, ts: int)
    requires reals.Valid() && thrust.Valid() && rank.Valid()
    ensures RateAt(reals, ts).None? <==> forall k :: 0 <= k < |reals.times| ==> ts < reals.times[k]
    ensures NetFlowAt(reals, ts).None? <==> forall k :: 0 <= k < |reals.times| ==> ts < reals.times[k] + DAY_MS
    ensures CloseAt(reals, ts).None? <==> forall k :: 0 <= k < |reals.times| ==> ts < reals.times[k] + HOUR_MS
    ensures InTopKAt(rank, ts).None? <==> forall k :: 0 <= k < |rank.times| ==> ts < rank.times[k]
    ensures forall i: nat :: IsLatest(reals.times, i, ts) ==> RateAt(reals, ts) == Some(reals.values[i])
    ensures forall i: nat :: IsLatest(reals.times, i, ts - DAY_MS) ==> NetFlowAt(reals, ts) == Some(reals.values[i])
    ensures forall i: nat :: IsLatest(reals.times, i, ts - HOUR_MS) ==> CloseAt(reals, ts) == Some(reals.values[i])
    ensures forall i: nat :: IsLatest(rank.times, i, ts) ==> InTopKAt(rank, ts) == Some(rank.values[i])
    ensures forall i: nat :: IsLatest(thrust.times, i, ts - HOUR_MS) ==> ThrustAt(thrust, ts) == thrust.values[i]
    ensures (forall k :: 0 <= k < |thrust.times| ==> ts < thrust.times[k] + HOUR_MS) ==> ThrustAt(thrust, ts).None?
  {
    hide ValueAt, AtOrBefore, IsLatest;
    LookupFindsLatest(reals, ts);
    LookupFindsLatest(reals, ts - DAY_MS);
    LookupFindsLatest(reals, ts - HOUR_MS);
    LookupFindsLatest(rank, ts);
    LookupFindsLatest(thrust, ts - HOUR_MS);
  }

  /** Funding needs no delay: the store never rejects it and always equals `rate_at`. */
  lemma FundingAgrees(s: TimeSeries<real>, symbol: Option<string>, ts: int)
    requires s.Valid()
    ensures !Leaks(FUNDING_RATE, FundingResolver(s), symbol, ts)
    ensures ResolveOne(FUNDING_RATE, FundingResolver(s), "funding_rate", symbol, ts).value == AsNumber(RateAt(s, ts))
  {
    BisectSplits(s.times, ts);
  }

  /** ETF flows: rejected exactly while the latest flow day is younger than two days; otherwise
      equal to `net_flow_at`, which itself waits one day. */
  lemma EtfFlowAgrees(s: TimeSeries<real>, symbol: Option<string>, ts: int)
    requires s.Valid()
    ensures Leaks(ETF_NET_FLOW, EtfFlowResolver(s), symbol, ts) <==> TooYoung(s.times, ts, 2 * DAY_MS)
    ensures var v := ResolveOne(ETF_NET_FLOW, EtfFlowResolver(s), "etf_net_flow", symbol, ts).value;
            && (v.Some? <==> AtOrBefore(s.times, ts).Some? && !TooYoung(s.times, ts, 2 * DAY_MS))
            && (v.Some? ==> v == AsNumber(NetFlowAt(s, ts)))
  {
    if AtOrBefore(s.times, ts).Some? && !TooYoung(s.times, ts, 2 * DAY_MS) {
      DelayedLookupAgrees(s, ts, DAY_MS, 2 * DAY_MS);
    }
  }

  /** Coinbase closes: rejected exactly while the latest bar is open; otherwise equal to `close_at`. */
  lemma CoinbaseCloseAgrees(s: TimeSeries<real>, symbol: Option<string>, ts: int)
    requires s.Valid()
    ensures Leaks(COINBASE_CLOSE, CoinbaseCloseResolver(s), symbol, ts) <==> TooYoung(s.times, ts, HOUR_MS)
    ensures var v := ResolveOne(COINBASE_CLOSE, CoinbaseCloseResolver(s), "coinbase_close", symbol, ts).value;
            && (v.Some? <==> AtOrBefore(s.times, ts).Some? && !TooYoung(s.times, ts, HOUR_MS))
            && (v.Some? ==> v == AsNumber(CloseAt(s, ts)))
  {
    if AtOrBefore(s.times, ts).Some? && !TooYoung(s.times, ts, HOUR_MS) {
      DelayedLookupAgrees(s, ts, HOUR_MS, HOUR_MS);
    }
  }

  /** BTC thrust: as Coinbase, except that a warm-up bar is missing rather than rejected. */
  lemma BtcThrustAgrees(s: TimeSeries<Option<real>>, symbol: Option<string>, ts: int)
    requires s.Valid()
    ensures Leaks(BTC_THRUST, BtcThrustResolver(s), symbol, ts)
       <==> TooYoung(s.times, ts, HOUR_MS) && s.values[AtOrBefore(s.times, ts).value].Some?
    ensures var v := ResolveOne(BTC_THRUST, BtcThrustResolver(s), "btc_thrust", symbol, ts).value;
            && (v.Some? <==> && AtOrBefore(s.times, ts).Some? && !TooYoung(s.times, ts, HOUR_MS)
                             && s.values[AtOrBefore(s.times, ts).value].Some?)
            && (v.Some? ==> v == AsNumber(ThrustAt(s, ts)))
  {
    if AtOrBefore(s.times, ts).Some? && !TooYoung(s.times, ts, HOUR_MS) {
      DelayedLookupAgrees(s, ts, HOUR_MS, HOUR_MS);
    }
  }

  /** Rank: rejected exactly while the latest panel bar is open; otherwise equal to `in_top_k_at`. */
  lemma XsRankAgrees(s: TimeSeries<bool>, symbol: Option<string>, ts: int)
    requires s.Valid()
    ensures Leaks(XS_IN_TOP_K, XsRankResolver(s), symbol, ts) <==> TooYoung(s.times, ts, HOUR_MS)
    ensures var v := ResolveOne(XS_IN_TOP_K, XsRankResolver(s), "xs_in_top_k", symbol, ts).value;
            && (v.Some? <==> AtOrBefore(s.times, ts).Some? && !TooYoung(s.times, ts, HOUR_MS))
            && (v.Some? ==> InTopKAt(s, ts).Some? && v == Some(Flag(InTopKAt(s, ts).value)))
  {
    if AtOrBefore(s.times, ts).Some? && !TooYoung(s.times, ts, HOUR_MS) {
      DelayedLookupAgrees(s, ts, 0, HOUR_MS);
    }
  }

  // ----- accessors against the specs ------------------------------------------------------------

  /** An accessor that waits `enforced` hands out an observation the spec calls knowable exactly when
      waiting the full `required` delay would have found the same one. */
  lemma AccessorKnowableIff(times: seq<int>, ts: int, enforced: int, required: int)
    requires NonDecreasing(times) && 0 <= enforced <= required
    requires AtOrBefore(times, ts - enforced).Some?
    ensures times[AtOrBefore(times, ts - enforced).value] + required <= ts
       <==> AtOrBefore(times, ts - required) == AtOrBefore(times, ts - enforced)
  {
    BisectSplits(times, ts - required);
    if times[AtOrBefore(times, ts - enforced).value] + required <= ts {
      EarlierSameElement(times, ts - enforced, ts - required);
    }
  }

  /** So `close_at` and `thrust_at`, which wait exactly the declared hour, never hand out a value
      that is not knowable; `in_top_k_at` and `net_flow_at` wait less than declared and can. */
  lemma RankAndFlowAccessorsCanLead()
    ensures var rank := TimeSeries([0], [true]);
            rank.Valid() && InTopKAt(rank, HOUR_MS - 1) == Some(true)
              && Leaks(XS_IN_TOP_K, XsRankResolver(rank), None, HOUR_MS - 1)
    ensures var flow := TimeSeries([0], [1.0]);
            flow.Valid() && NetFlowAt(flow, DAY_MS) == Some(1.0)
              && Leaks(ETF_NET_FLOW, EtfFlowResolver(flow), None, DAY_MS)
  {
    BisectUnique([0], HOUR_MS - 1, 1);
    BisectUnique([0], DAY_MS, 1);
    BisectUnique([0], 0, 1);
  }

  /** The store never falls back to an older observation. Inside its coverage a series has an
      instant at which it is accepted if and only if some gap between bars exceeds the delay. */
  lemma AcceptedInsideCoverageIff(times: seq<int>, delay: int)
    requires NonDecreasing(times) && times != [] && 0 < delay
    ensures (exists ts :: times[0] <= ts < times[|times| - 1] + delay && !TooYoung(times, ts, delay))
       <==> (exists k :: 0 <= k < |times| - 1 && times[k + 1] - times[k] > delay)
  {
    if ts :| times[0] <= ts < times[|times| - 1] + delay && !TooYoung(times, ts, delay) {
      BisectSplits(times, ts);
      var i := BisectRight(times, ts) - 1;
      assert i < |times| - 1;
      assert times[i + 1] - times[i] > delay;
    }
    if k :| 0 <= k < |times| - 1 && times[k + 1] - times[k] > delay {
      BisectUnique(times, times[k] + delay, k + 1);
      var ts := times[k] + delay;
      assert times[0] <= times[k] && times[k + 1] <= times[|times| - 1];
      assert times[0] <= ts < times[|times| - 1] + delay && !TooYoung(times, ts, delay);
    }
  }

  /** On a gap-free hourly history every instant inside the coverage is rejected, although `close_at`
      answers from one hour after the first bar. */
  lemma GapFreeHourlyAlwaysRejected(s: TimeSeries<real>, symbol: Option<string>, ts: int)
    requires s.Valid() && s.times != [] && forall k :: 0 <= k < |s.times| - 1 ==> s.times[k + 1] - s.times[k] <= HOUR_MS
    requires s.times[0] <= ts < s.times[|s.times| - 1] + HOUR_MS
    ensures Leaks(COINBASE_CLOSE, CoinbaseCloseResolver(s), symbol, ts)
    ensures s.times[0] + HOUR_MS <= ts ==> CloseAt(s, ts).Some?
  {
    AcceptedInsideCoverageIff(s.times, HOUR_MS);
    CoinbaseCloseAgrees(s, symbol, ts);
    BisectSplits(s.times, ts - HOUR_MS);
  }
}
