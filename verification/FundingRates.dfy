/**
 The paginated funding-rate fetch and its cache (research/data/funding_rates.py, 122-289). The
 endpoint serves an ascending history in pages; the page limit is a parameter of at least 2
 (the source asks for 1000).
 */
module FundingRates {
  import opened Wrappers
  import opened Sorting
  import opened Series
  import opened Channels

  datatype Print = Print(time: int, rate: real)

  datatype FundingSeries = FundingSeries(prints: TimeSeries<real>, coveredStart: int, coveredEnd: int)

  ghost predicate History(h: seq<Print>) {
    forall i, j :: 0 <= i < j < |h| ==> h[i].time < h[j].time
  }

  /** The prints of a history with lo <= time <= hi, in order. */
  function Between(h: seq<Print>, lo: int, hi: int): seq<Print> {
    if h == [] then []
    else Between(h[..|h| - 1], lo, hi) + (if lo <= h[|h| - 1].time <= hi then [h[|h| - 1]] else [])
  }

  /** One response of the endpoint: the first `limit` prints of the window. */
  function Page(h: seq<Print>, lo: int, hi: int, limit: nat): seq<Print> {
    var all := Between(h, lo, hi);
    if limit < |all| then all[..limit] else all
  }

  function TimesOf(prints: seq<Print>): (times: seq<int>)
    ensures |times| == |prints| && forall i :: 0 <= i < |prints| ==> times[i] == prints[i].time
  {
    seq(|prints|, i requires 0 <= i < |prints| => prints[i].time)
  }

  function RatesOf(prints: seq<Print>): (rates: seq<real>)
    ensures |rates| == |prints| && forall i :: 0 <= i < |prints| ==> rates[i] == prints[i].rate
  {
    seq(|prints|, i requires 0 <= i < |prints| => prints[i].rate)
  }

  function SeriesOf(prints: seq<Print>): TimeSeries<real> {
    TimeSeries(TimesOf(prints), RatesOf(prints))
  }

  // ----- windows of a history -----------------------------------------------------------------

  lemma {:induction false} BetweenElements(h: seq<Print>, lo: int, hi: int)
    ensures forall p :: p in Between(h, lo, hi) <==> p in h && lo <= p.time <= hi
  {
    if h != [] {
      BetweenElements(h[..|h| - 1], lo, hi);
      assert h == h[..|h| - 1] + [h[|h| - 1]];
    }
  }

  lemma {:induction false} BetweenAscending(h: seq<Print>, lo: int, hi: int)
    requires History(h)
    ensures History(Between(h, lo, hi))
  {
    if h != [] {
      var front := h[..|h| - 1];
      BetweenAscending(front, lo, hi);
      BetweenElements(front, lo, hi);
      forall p | p in Between(front, lo, hi) ensures p.time < h[|h| - 1].time {
        var i :| 0 <= i < |front| && front[i] == p;
        assert h[i] == p;
      }
    }
  }

  lemma {:induction false} BetweenNothing(h: seq<Print>, lo: int, hi: int)
    requires forall p :: p in h ==> !(lo <= p.time <= hi)
    ensures Between(h, lo, hi) == []
  {
    if h != [] {
      assert h == h[..|h| - 1] + [h[|h| - 1]];
      BetweenNothing(h[..|h| - 1], lo, hi);
    }
  }

  lemma {:induction false} BetweenSplits(h: seq<Print>, lo: int, mid: int, hi: int)
    requires History(h) && lo <= mid + 1 && mid <= hi
    ensures Between(h, lo, hi) == Between(h, lo, mid) + Between(h, mid + 1, hi)
  {
    hide *;
    if h != [] {
      var front, last := h[..|h| - 1], h[|h| - 1];
      FrontIsHistory(h);
      BetweenSplits(front, lo, mid, hi);
      BetweenLast(h, lo, hi);
      BetweenLast(h, lo, mid);
      BetweenLast(h, mid + 1, hi);
      if lo <= last.time <= mid {
        BetweenNothing(front, mid + 1, hi);
      }
    } else {
      BetweenNothing(h, lo, hi);
      BetweenNothing(h, lo, mid);
      BetweenNothing(h, mid + 1, hi);
    }
  }

  lemma {:induction false} BetweenLast(h: seq<Print>, lo: int, hi: int)
    requires h != []
    ensures Between(h, lo, hi)
         == Between(h[..|h| - 1], lo, hi) + (if lo <= h[|h| - 1].time <= hi then [h[|h| - 1]] else [])
  {
  }

  lemma FrontIsHistory(h: seq<Print>)
    requires h != [] && History(h)
    ensures History(h[..|h| - 1]) && forall p :: p in h[..|h| - 1] ==> p.time < h[|h| - 1].time
  {
  }

  /** A full page is the window up to the time of its last print. */
  lemma PageIsAWindow(h: seq<Print>, lo: int, hi: int, limit: nat)
    requires History(h) && 1 <= limit && limit <= |Between(h, lo, hi)|
    ensures var last := Between(h, lo, hi)[limit - 1].time;
            lo <= last <= hi && Page(h, lo, hi, limit) == Between(h, lo, last)
  {
    hide Between;
    var all := Between(h, lo, hi);
    BetweenElements(h, lo, hi);
    BetweenAscending(h, lo, hi);
    assert all[limit - 1] in all;
    var last := all[limit - 1].time;
    BetweenSplits(h, lo, last, hi);
    BetweenElements(h, lo, last);
    BetweenElements(h, last + 1, hi);
    SplitPoint(Between(h, lo, last), Between(h, last + 1, hi), limit, last);
  }

  lemma SplitPoint(first: seq<Print>, rest: seq<Print>, limit: nat, last: int)
    requires History(first + rest) && 1 <= limit <= |first + rest| && (first + rest)[limit - 1].time == last
    requires (forall p :: p in first ==> p.time <= last) && (forall p :: p in rest ==> last < p.time)
    ensures |first| == limit && first == (first + rest)[..limit]
  {
    var all := first + rest;
    forall i | 0 <= i < |all| ensures all[i].time <= last <==> i < |first| {
      if i < |first| { assert first[i] in first; } else { assert rest[i - |first|] in rest; }
    }
    assert limit < |all| ==> last < all[limit].time;
    assert |first| == limit;
  }

  /** A page holds prints of its window only, and all of them unless it is full. */
  lemma {:induction false} PageOfWindow(h: seq<Print>, lo: int, hi: int, limit: nat)
    ensures forall p :: p in Page(h, lo, hi, limit) ==> p in h && lo <= p.time <= hi
    ensures |Page(h, lo, hi, limit)| < limit || |Page(h, lo, hi, limit)| == 0 < limit
        ==> Page(h, lo, hi, limit) == Between(h, lo, hi)
    ensures |Page(h, lo, hi, limit)| <= limit && |Page(h, lo, hi, limit)| <= |Between(h, lo, hi)|
  {
    BetweenElements(h, lo, hi);
    hide Between;
  }

  /** A full page of two prints or more ends after the cursor. */
  lemma {:induction false} FullPageAdvances(h: seq<Print>, lo: int, hi: int, limit: nat)
    requires History(h) && 2 <= limit == |Page(h, lo, hi, limit)|
    ensures lo <= Page(h, lo, hi, limit)[0].time < Page(h, lo, hi, limit)[limit - 1].time <= hi
    ensures limit <= |Between(h, lo, hi)| && Page(h, lo, hi, limit)[limit - 1] == Between(h, lo, hi)[limit - 1]
  {
    PageOfWindow(h, lo, hi, limit);
    BetweenAscending(h, lo, hi);
    hide Between;
    assert Page(h, lo, hi, limit)[0] in Page(h, lo, hi, limit);
    assert Page(h, lo, hi, limit)[limit - 1] in Page(h, lo, hi, limit);
  }

  // ----- the fetch --------------------------------------------------------------------------------

  datatype FetchError = WindowReversed

  /** The pagination loop, the de-duplication and the sort. */
  method FetchFundingHistory(h: seq<Print>, start: int, end: int, limit: nat)
    returns (r: Result<FundingSeries, FetchError>)
    requires History(h) && 2 <= limit
    ensures r == (if start > end then Failure(WindowReversed)
                  else Success(FundingSeries(SeriesOf(Between(h, start, end)), start, end)))
  {
    hide Between, Page;
    if start > end {
      return Failure(WindowReversed);
    }
    var prints: seq<Print> := [];
    var cursor := start;
    BetweenEmpty(h, start, start - 1);
    while cursor <= end
      invariant start <= cursor <= end + 1
      invariant prints == Between(h, start, cursor - 1)
      decreases end + 1 - cursor
    {
      var batch := Page(h, cursor, end, limit);
      BetweenSplits(h, start, cursor - 1, end);
      PageOfWindow(h, cursor, end, limit);
      if batch == [] {
        assert prints == Between(h, start, end);
        break;
      }
      BetweenEverything(batch, start, end);
      var kept := KeepInWindow(batch, start, end);
      prints := prints + kept;
      var lastTime := batch[|batch| - 1].time;
      if |batch| < limit {
        assert prints == Between(h, start, end);
        break;
      }
      FullPageAdvances(h, cursor, end, limit);
      PageIsAWindow(h, cursor, end, limit);
      BetweenSplits(h, start, cursor - 1, lastTime);
      cursor := lastTime + 1;
    }
    BetweenAscending(h, start, end);
    var series := Deduplicated(prints);
    r := Success(FundingSeries(series, start, end));
  }

  lemma {:induction false} BetweenEmpty(h: seq<Print>, lo: int, hi: int)
    requires hi < lo
    ensures Between(h, lo, hi) == []
  {
    BetweenNothing(h, lo, hi);
  }

  /** The rows of any page that lie in the requested window. */
  method KeepInWindow(batch: seq<Print>, start: int, end: int) returns (kept: seq<Print>)
    ensures kept == Between(batch, start, end)
  {
    kept := [];
    for i := 0 to |batch|
      invariant kept == Between(batch[..i], start, end)
    {
      assert batch[..i + 1][..i] == batch[..i];
      if batch[i].time < start || batch[i].time > end {
        continue;
      }
      kept := kept + [batch[i]];
    }
    assert batch[..|batch|] == batch;
  }

  lemma {:induction false} BetweenEverything(h: seq<Print>, lo: int, hi: int)
    requires forall p :: p in h ==> lo <= p.time <= hi
    ensures Between(h, lo, hi) == h
  {
    if h != [] {
      var front, last := h[..|h| - 1], h[|h| - 1];
      assert h == front + [last];
      assert last in h;
      BetweenEverything(front, lo, hi);
    }
  }

  /** Through a dict and back in ascending order: the identity on an ascending list. */
  method Deduplicated(prints: seq<Print>) returns (series: TimeSeries<real>)
    requires History(prints)
    ensures series == SeriesOf(prints)
  {
    var dedup: map<int, real> := map[];
    for i := 0 to |prints|
      invariant forall t :: t in dedup <==> t in TimesOf(prints[..i])
      invariant forall k :: 0 <= k < i ==> prints[k].time in dedup && dedup[prints[k].time] == prints[k].rate
    {
      assert TimesOf(prints[..i + 1]) == TimesOf(prints[..i]) + [prints[i].time];
      dedup := dedup[prints[i].time := prints[i].rate];
    }
    assert prints[..|prints|] == prints;
    var times := SortedSet(dedup.Keys);
    SortedSetAscending(dedup.Keys);
    AscendingUnique(times, TimesOf(prints));
    series := TimeSeries(times, seq(|times|, i requires 0 <= i < |times| => assert times[i] in times; dedup[times[i]]));
    assert series.values == RatesOf(prints);
  }

  // ----- the cache ------------------------------------------------------------------------------------

  /** The series holds exactly the prints of the history in the window it says it covers. */
  ghost predicate Faithful(s: FundingSeries, h: seq<Print>) {
    s.prints == SeriesOf(Between(h, s.coveredStart, s.coveredEnd))
  }

  lemma FaithfulIsValid(s: FundingSeries, h: seq<Print>)
    requires History(h) && Faithful(s, h)
    ensures s.prints.Valid()
  {
    BetweenAscending(h, s.coveredStart, s.coveredEnd);
  }

  /** One symbol's cache file. */
  class FundingCache {
    var cached: Option<FundingSeries>

    constructor ()
      ensures cached == None
    {
      cached := None;
    }

    /** Reuse a cache that covers the window, else fetch and overwrite it. */
    method LoadOrFetch(h: seq<Print>, start: int, end: int, limit: nat, useCache: bool)
      returns (r: Result<FundingSeries, FetchError>)
      requires History(h) && 2 <= limit
      requires cached.Some? ==> Faithful(cached.value, h)
      modifies this
      ensures cached.Some? ==> Faithful(cached.value, h)
      ensures r.Success? ==> Faithful(r.value, h) && r.value.coveredStart <= start && end <= r.value.coveredEnd
      ensures var hit := useCache && old(cached).Some? && old(cached).value.coveredStart <= start
                           && end <= old(cached).value.coveredEnd;
              if hit then r == Success(old(cached).value) && cached == old(cached)
              else
                && (r.Success? <==> start <= end)
                && (r.Success? ==> r.value.coveredStart == start && r.value.coveredEnd == end)
                && cached == if useCache && r.Success? then Some(r.value) else old(cached)
    {
      if useCache && cached.Some? && cached.value.coveredStart <= start && cached.value.coveredEnd >= end {
        return Success(cached.value);
      }
      r := FetchFundingHistory(h, start, end, limit);
      if useCache && r.Success? {
        cached := Some(r.value);
      }
    }
  }

  /** A covering cache and a fresh fetch: inside the requested window the cache answers whenever the
      fresh series does, with the same rate; and the two agree everywhere in it exactly at the
      instants that the fresh series answers or that no older print of the cache precedes. */
  lemma {:induction false} CacheAgreesWithFetch(h: seq<Print>, cache: FundingSeries, fetched: FundingSeries, ts: int)
    requires History(h) && Faithful(cache, h) && Faithful(fetched, h)
    requires cache.coveredStart <= fetched.coveredStart <= ts <= fetched.coveredEnd <= cache.coveredEnd
    ensures cache.prints.Valid() && fetched.prints.Valid()
    ensures RateAt(fetched.prints, ts).Some? ==> RateAt(cache.prints, ts) == RateAt(fetched.prints, ts)
    ensures RateAt(cache.prints, ts) == RateAt(fetched.prints, ts)
       <==> RateAt(fetched.prints, ts).Some? || Between(h, cache.coveredStart, fetched.coveredStart - 1) == []
  {
    hide Between;
    var older := Between(h, cache.coveredStart, fetched.coveredStart - 1);
    var window := Between(h, fetched.coveredStart, fetched.coveredEnd);
    var newer := Between(h, fetched.coveredEnd + 1, cache.coveredEnd);
    BetweenSplits(h, cache.coveredStart, fetched.coveredStart - 1, cache.coveredEnd);
    BetweenSplits(h, fetched.coveredStart, fetched.coveredEnd, cache.coveredEnd);
    assert Between(h, cache.coveredStart, cache.coveredEnd) == older + (window + newer);
    FaithfulIsValid(cache, h);
    FaithfulIsValid(fetched, h);
    BetweenElements(h, cache.coveredStart, fetched.coveredStart - 1);
    BetweenElements(h, fetched.coveredStart, fetched.coveredEnd);
    BetweenElements(h, fetched.coveredEnd + 1, cache.coveredEnd);
    LookupsAgree(older, window, newer, ts);
  }

  /** A lookup in a longer series with the same window inside. */
  lemma LookupsAgree(older: seq<Print>, window: seq<Print>, newer: seq<Print>, ts: int)
    requires SeriesOf(older + (window + newer)).Valid() && SeriesOf(window).Valid()
    requires forall p :: p in older ==> p.time <= ts
    requires forall p :: p in newer ==> ts < p.time
    ensures var cache, fetched := SeriesOf(older + (window + newer)), SeriesOf(window);
            && (RateAt(fetched, ts).Some? ==> RateAt(cache, ts) == RateAt(fetched, ts))
            && (RateAt(cache, ts) == RateAt(fetched, ts) <==> RateAt(fetched, ts).Some? || older == [])
  {
    SurroundedLookup(older, window, newer, ts);
    hide BisectRight;
  }

  /** Looking up a window that older prints precede and newer prints follow. */
  lemma {:induction false} SurroundedLookup(older: seq<Print>, window: seq<Print>, newer: seq<Print>, ts: int)
    requires NonDecreasing(TimesOf(older + (window + newer))) && NonDecreasing(TimesOf(window))
    requires forall p :: p in older ==> p.time <= ts
    requires forall p :: p in newer ==> ts < p.time
    ensures BisectRight(TimesOf(older + (window + newer)), ts) == |older| + BisectRight(TimesOf(window), ts)
  {
    var times, inner := TimesOf(older + (window + newer)), TimesOf(window);
    BisectSplits(inner, ts);
    var p := |older| + BisectRight(inner, ts);
    if BisectRight(inner, ts) == 0 {
      if older != [] { assert older[|older| - 1] in older; }
    }
    if BisectRight(inner, ts) == |window| && newer != [] { assert newer[0] in newer; }
    BisectUnique(times, ts, p);
  }
}
