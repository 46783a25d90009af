/**
 The regime that prevailed at a trade's entry, and the trades grouped by it
 (research/backtest/regime_tagging.py, 45-249). The labels of the daily bars are an input.
 */
module RegimeTagging {
  import opened Wrappers
  import opened Sorting
  import opened Series
  import opened CostModel

  datatype SubRegime =
    TrendingBull | ChoppyBull | TrendingBear | ChoppyBear | Ranging | HighVol | Transitional | Unknown

  datatype CoarseBucket = Bull | Bear | Chop

  const COARSE_BUCKETS: seq<CoarseBucket> := [Bull, Bear, Chop]

  function CoarseBucketOf(s: SubRegime): Option<CoarseBucket> {
    match s
    case TrendingBull | ChoppyBull => Some(Bull)
    case TrendingBear | ChoppyBear => Some(Bear)
    case Ranging | HighVol => Some(Chop)
    case Transitional | Unknown => None
  }

  datatype LabelledBar = LabelledBar(time: int, regime: SubRegime)

  datatype RegimeTimeline = RegimeTimeline(timestamps: seq<int>, labels: seq<SubRegime>) {
    ghost predicate Valid() {
      |timestamps| == |labels| && NonDecreasing(timestamps)
    }
  }

  predicate BarLe(a: LabelledBar, b: LabelledBar) {
    a.time <= b.time
  }

  /** Unzip bars that are already in order. */
  function TimelineOf(bars: seq<LabelledBar>): RegimeTimeline {
    RegimeTimeline(seq(|bars|, i requires 0 <= i < |bars| => bars[i].time),
                   seq(|bars|, i requires 0 <= i < |bars| => bars[i].regime))
  }

  /** The bars of a timeline. */
  function BarsOf(t: RegimeTimeline): (bars: seq<LabelledBar>)
    requires |t.timestamps| == |t.labels|
  {
    seq(|t.timestamps|, i requires 0 <= i < |t.timestamps| => LabelledBar(t.timestamps[i], t.labels[i]))
  }

  function BuildRegimeTimeline(bars: seq<LabelledBar>): (t: RegimeTimeline)
    ensures t.Valid() && multiset(BarsOf(t)) == multiset(bars)
  {
    BarsInOrder(bars);
    SortKeepsElements(bars, BarLe);
    assert BarsOf(TimelineOf(Sort(bars, BarLe))) == Sort(bars, BarLe);
    TimelineOf(Sort(bars, BarLe))
  }

  lemma {:induction false} BarsInOrder(bars: seq<LabelledBar>)
    ensures TimelineOf(Sort(bars, BarLe)).Valid()
  {
    SortSorts(bars, BarLe);
    var s := Sort(bars, BarLe);
    forall i, j | 0 <= i < j < |s| ensures TimelineOf(s).timestamps[i] <= TimelineOf(s).timestamps[j] {
      assert BarLe(s[i], s[j]);
    }
  }

  /** The label of the latest bar at or before the entry; unknown before the first bar. */
  function RegimeAtEntry(entryTime: int, timeline: RegimeTimeline): SubRegime
    requires timeline.Valid()
  {
    if timeline.timestamps == [] then Unknown else
    var p := BisectRight(timeline.timestamps, entryTime);
    if p == 0 then Unknown else timeline.labels[p - 1]
  }

  // ----- causality --------------------------------------------------------------------------

  /** The bars that had opened by t, in the order they came. */
  function Known(bars: seq<LabelledBar>, t: int): seq<LabelledBar> {
    if bars == [] then []
    else (if bars[0].time <= t then [bars[0]] else []) + Known(bars[1..], t)
  }

  /** Of two candidates, the first of them read earlier: the later bar, and on a tie the one read last. */
  function Later(first: LabelledBar, rest: Option<LabelledBar>, t: int): Option<LabelledBar> {
    if first.time <= t && (rest.None? || rest.value.time < first.time) then Some(first) else rest
  }

  /** The latest of the bars known at t, found without sorting or searching. */
  function LatestKnown(bars: seq<LabelledBar>, t: int): Option<LabelledBar> {
    if bars == [] then None else Later(bars[0], LatestKnown(bars[1..], t), t)
  }

  lemma {:induction false} InsertKeepsLatest(x: LabelledBar, s: seq<LabelledBar>, t: int)
    ensures LatestKnown(Insert(x, s, BarLe), t) == Later(x, LatestKnown(s, t), t)
  {
    if s == [] || BarLe(x, s[0]) {
      assert ([x] + s)[1..] == s;
    } else {
      InsertKeepsLatest(x, s[1..], t);
      assert Insert(x, s, BarLe)[1..] == Insert(x, s[1..], BarLe);
    }
  }

  lemma {:induction false} SortKeepsLatest(bars: seq<LabelledBar>, t: int)
    ensures LatestKnown(Sort(bars, BarLe), t) == LatestKnown(bars, t)
  {
    if bars != [] {
      SortKeepsLatest(bars[1..], t);
      InsertKeepsLatest(bars[0], Sort(bars[1..], BarLe), t);
    }
  }

  lemma {:induction false} SearchFindsLatest(s: seq<LabelledBar>, t: int)
    requires TimelineOf(s).Valid()
    ensures LatestKnown(s, t) == var p := BisectRight(TimelineOf(s).timestamps, t);
                                 if p == 0 then None else Some(s[p - 1])
  {
    if s != [] {
      var times, rest := TimelineOf(s).timestamps, TimelineOf(s[1..]).timestamps;
      assert rest == times[1..];
      BisectSplits(times, t);
      var p := BisectRight(times, t);
      BisectUnique(rest, t, if p == 0 then 0 else p - 1);
      SearchFindsLatest(s[1..], t);
      assert times[0] == s[0].time;
      if 1 < p { assert times[0] <= times[p - 1] == s[p - 1].time; }
    }
  }

  /** Sorting the bars and searching them finds the latest bar known at the entry. */
  lemma {:induction false} TagIsLatestKnown(bars: seq<LabelledBar>, t: int)
    ensures RegimeAtEntry(t, BuildRegimeTimeline(bars))
         == match LatestKnown(bars, t) { case None => Unknown case Some(bar) => bar.regime }
  {
    hide Sort, LatestKnown, BarLe;
    BarsInOrder(bars);
    SortKeepsLatest(bars, t);
    SearchFindsLatest(Sort(bars, BarLe), t);
    assert |TimelineOf(Sort(bars, BarLe)).timestamps| == |Sort(bars, BarLe)|;
    hide BisectRight;
  }

  lemma {:induction false} LatestIsKnown(bars: seq<LabelledBar>, t: int)
    ensures LatestKnown(bars, t) == LatestKnown(Known(bars, t), t)
  {
    if bars != [] {
      LatestIsKnown(bars[1..], t);
      if bars[0].time <= t {
        assert Known(bars, t)[1..] == Known(bars[1..], t);
      } else {
        assert Known(bars, t) == Known(bars[1..], t);
      }
    }
  }

  /** Two histories that agree up to the entry give it the same tag, whatever follows. */
  lemma {:induction false} TagsAreCausal(bars: seq<LabelledBar>, others: seq<LabelledBar>, t: int)
    requires Known(bars, t) == Known(others, t)
    ensures RegimeAtEntry(t, BuildRegimeTimeline(bars)) == RegimeAtEntry(t, BuildRegimeTimeline(others))
  {
    TagIsLatestKnown(bars, t);
    TagIsLatestKnown(others, t);
    LatestIsKnown(bars, t);
    LatestIsKnown(others, t);
  }

  // ----- tagging and grouping ---------------------------------------------------------------

  /** A trade with its entry time parsed; None when missing or unparseable. */
  datatype EnteredTrade = EnteredTrade(trade: Trade, entryTime: Option<int>)

  datatype TaggedTrade = TaggedTrade(trade: Trade, subRegime: SubRegime, coarseBucket: Option<CoarseBucket>) {
    predicate Valid() {
      coarseBucket == CoarseBucketOf(subRegime)
    }
  }

  function Tagged(e: EnteredTrade, timeline: RegimeTimeline): (t: TaggedTrade)
    requires timeline.Valid()
    ensures t.Valid()
  {
    var sub := if e.entryTime.Some? then RegimeAtEntry(e.entryTime.value, timeline) else Unknown;
    TaggedTrade(e.trade, sub, CoarseBucketOf(sub))
  }

  method TagTrades(trades: seq<EnteredTrade>, timeline: RegimeTimeline) returns (tagged: seq<TaggedTrade>)
    requires timeline.Valid()
    ensures |tagged| == |trades|
    ensures forall i :: 0 <= i < |trades| ==> tagged[i] == Tagged(trades[i], timeline)
    ensures forall t :: t in tagged ==> t.Valid()
  {
    tagged := [];
    for i := 0 to |trades|
      invariant |tagged| == i
      invariant forall j :: 0 <= j < i ==> tagged[j] == Tagged(trades[j], timeline)
    {
      tagged := tagged + [Tagged(trades[i], timeline)];
    }
  }

  function Coarse(t: TaggedTrade): Option<CoarseBucket> {
    t.coarseBucket
  }

  /** Undefined regimes have no bucket here either. */
  function Fine(t: TaggedTrade): Option<SubRegime> {
    if t.subRegime.Unknown? || t.subRegime.Transitional? then None else Some(t.subRegime)
  }

  /** The trades whose bucket is k (none of them, with k None, has a bucket). */
  function In<K(==)>(tagged: seq<TaggedTrade>, bucket: TaggedTrade -> Option<K>, k: Option<K>): seq<Trade> {
    if tagged == [] then [] else
    var last := tagged[|tagged| - 1];
    In(tagged[..|tagged| - 1], bucket, k) + (if bucket(last) == k then [last.trade] else [])
  }

  /** The buckets that hold a trade, in the order of their first trade. */
  function Seen<K(==)>(tagged: seq<TaggedTrade>, bucket: TaggedTrade -> Option<K>): seq<K> {
    if tagged == [] then [] else
    var seen, b := Seen(tagged[..|tagged| - 1], bucket), bucket(tagged[|tagged| - 1]);
    if b.None? || b.value in seen then seen else seen + [b.value]
  }

  /** A Python dict: its keys in insertion order and what they map to. */
  datatype Buckets<!K> = Buckets(order: seq<K>, trades: map<K, seq<Trade>>)

  ghost predicate Groups<K(!new)>(b: Buckets<K>, tagged: seq<TaggedTrade>, bucket: TaggedTrade -> Option<K>) {
    && b.order == Seen(tagged, bucket)
    && (forall k :: k in b.trades <==> k in b.order)
    && (forall k :: k in b.trades ==> b.trades[k] == In(tagged, bucket, Some(k)))
  }

  lemma {:induction false} SeenExactly<K(!new)>(tagged: seq<TaggedTrade>, bucket: TaggedTrade -> Option<K>)
    ensures forall k :: k in Seen(tagged, bucket) <==> In(tagged, bucket, Some(k)) != []
    ensures forall i, j :: 0 <= i < j < |Seen(tagged, bucket)| ==> Seen(tagged, bucket)[i] != Seen(tagged, bucket)[j]
  {
    if tagged != [] {
      SeenExactly(tagged[..|tagged| - 1], bucket);
    }
  }

  lemma GroupsNone<K(!new)>(bucket: TaggedTrade -> Option<K>)
    ensures Groups(Buckets([], map[]), [], bucket)
  {
  }

  lemma GroupsOneMore<K(!new)>(b: Buckets<K>, tagged: seq<TaggedTrade>, bucket: TaggedTrade -> Option<K>, k: K,
                               next: TaggedTrade)
    requires Groups(b, tagged, bucket) && bucket(next) == Some(k)
    ensures Groups(
              if k in b.trades then Buckets(b.order, b.trades[k := b.trades[k] + [next.trade]])
              else Buckets(b.order + [k], b.trades[k := [next.trade]]),
              tagged + [next], bucket)
  {
    SeenExactly(tagged, bucket);
    assert (tagged + [next])[..|tagged|] == tagged;
    forall j
      ensures In(tagged + [next], bucket, Some(j))
           == In(tagged, bucket, Some(j)) + if j == k then [next.trade] else []
    {
    }
  }

  lemma GroupsSkip<K(!new)>(b: Buckets<K>, tagged: seq<TaggedTrade>, bucket: TaggedTrade -> Option<K>,
                            next: TaggedTrade)
    requires Groups(b, tagged, bucket) && bucket(next) == None
    ensures Groups(b, tagged + [next], bucket)
  {
    assert (tagged + [next])[..|tagged|] == tagged;
    forall j ensures In(tagged + [next], bucket, Some(j)) == In(tagged, bucket, Some(j)) {
    }
  }

  method BucketByCoarse(tagged: seq<TaggedTrade>) returns (b: Buckets<CoarseBucket>)
    ensures Groups(b, tagged, Coarse)
  {
    hide Groups;
    b := Buckets([], map[]);
    GroupsNone(Coarse);
    for i := 0 to |tagged|
      invariant Groups(b, tagged[..i], Coarse)
    {
      var next := tagged[i];
      assert tagged[..i + 1] == tagged[..i] + [next];
      if next.coarseBucket.None? {
        GroupsSkip(b, tagged[..i], Coarse, next);
      } else {
        var k := next.coarseBucket.value;
        GroupsOneMore(b, tagged[..i], Coarse, k, next);
        b := if k in b.trades then Buckets(b.order, b.trades[k := b.trades[k] + [next.trade]])
             else Buckets(b.order + [k], b.trades[k := [next.trade]]);
      }
    }
    assert tagged[..|tagged|] == tagged;
  }

  method BucketBySubRegime(tagged: seq<TaggedTrade>) returns (b: Buckets<SubRegime>)
    ensures Groups(b, tagged, Fine)
  {
    hide Groups;
    b := Buckets([], map[]);
    GroupsNone(Fine);
    for i := 0 to |tagged|
      invariant Groups(b, tagged[..i], Fine)
    {
      var next := tagged[i];
      assert tagged[..i + 1] == tagged[..i] + [next];
      if next.subRegime.Unknown? || next.subRegime.Transitional? {
        GroupsSkip(b, tagged[..i], Fine, next);
      } else {
        var k := next.subRegime;
        GroupsOneMore(b, tagged[..i], Fine, k, next);
        b := if k in b.trades then Buckets(b.order, b.trades[k := b.trades[k] + [next.trade]])
             else Buckets(b.order + [k], b.trades[k := [next.trade]]);
      }
    }
    assert tagged[..|tagged|] == tagged;
  }

  /** A tag in full: the trade itself; the label of the latest bar known at a parsed entry time, and none
      without one; and its bucket, by name. */
  lemma {:induction false} TaggedExactly(e: EnteredTrade, bars: seq<LabelledBar>)
    ensures var t := Tagged(e, BuildRegimeTimeline(bars));
            && t.trade == e.trade
            && t.subRegime == (if e.entryTime.None? || LatestKnown(bars, e.entryTime.value).None? then Unknown
                               else LatestKnown(bars, e.entryTime.value).value.regime)
            && (t.coarseBucket == Some(Bull) <==> t.subRegime in {TrendingBull, ChoppyBull})
            && (t.coarseBucket == Some(Bear) <==> t.subRegime in {TrendingBear, ChoppyBear})
            && (t.coarseBucket == Some(Chop) <==> t.subRegime in {Ranging, HighVol})
            && (t.coarseBucket == None <==> t.subRegime in {Transitional, Unknown})
  {
    if e.entryTime.Some? { TagIsLatestKnown(bars, e.entryTime.value); }
    hide BuildRegimeTimeline, RegimeAtEntry, LatestKnown;
  }

  /** The trades with one of these labels, in order. */
  function Labelled(tagged: seq<TaggedTrade>, labels: set<SubRegime>): seq<Trade> {
    if tagged == [] then [] else
    var last := tagged[|tagged| - 1];
    Labelled(tagged[..|tagged| - 1], labels) + (if last.subRegime in labels then [last.trade] else [])
  }

  /** Each bucket by the labels it holds, in the order of the trades. */
  lemma {:induction false} BucketsByLabel(tagged: seq<TaggedTrade>)
    requires forall t :: t in tagged ==> t.Valid()
    ensures In(tagged, Coarse, Some(Bull)) == Labelled(tagged, {TrendingBull, ChoppyBull})
    ensures In(tagged, Coarse, Some(Bear)) == Labelled(tagged, {TrendingBear, ChoppyBear})
    ensures In(tagged, Coarse, Some(Chop)) == Labelled(tagged, {Ranging, HighVol})
    ensures In(tagged, Coarse, None) == In(tagged, Fine, None) == Labelled(tagged, {Transitional, Unknown})
    ensures forall r :: r !in {Transitional, Unknown} ==> In(tagged, Fine, Some(r)) == Labelled(tagged, {r})
  {
    if tagged != [] {
      BucketsByLabel(tagged[..|tagged| - 1]);
      assert tagged[|tagged| - 1] in tagged;
    }
  }

  function Trades(tagged: seq<TaggedTrade>): seq<Trade> {
    seq(|tagged|, i requires 0 <= i < |tagged| => tagged[i].trade)
  }

  /** How often a trade is in a bucket. */
  function Times<K(==)>(tagged: seq<TaggedTrade>, bucket: TaggedTrade -> Option<K>, k: Option<K>, x: Trade): nat {
    if tagged == [] then 0 else
    var last := tagged[|tagged| - 1];
    Times(tagged[..|tagged| - 1], bucket, k, x) + if bucket(last) == k && last.trade == x then 1 else 0
  }

  lemma {:induction false} TimesIn<K>(tagged: seq<TaggedTrade>, bucket: TaggedTrade -> Option<K>, k: Option<K>,
                                      x: Trade)
    ensures multiset(In(tagged, bucket, k))[x] == Times(tagged, bucket, k, x)
  {
    if tagged != [] {
      TimesIn(tagged[..|tagged| - 1], bucket, k, x);
    }
  }

  lemma {:induction false} BucketIsTwoRegimes(tagged: seq<TaggedTrade>, b: CoarseBucket, r: SubRegime, q: SubRegime,
                                              x: Trade)
    requires forall t :: t in tagged ==> t.Valid()
    requires r != q && forall s :: CoarseBucketOf(s) == Some(b) <==> s == r || s == q
    ensures Times(tagged, Coarse, Some(b), x) == Times(tagged, Fine, Some(r), x) + Times(tagged, Fine, Some(q), x)
  {
    if tagged != [] {
      BucketIsTwoRegimes(tagged[..|tagged| - 1], b, r, q, x);
      var last := tagged[|tagged| - 1];
      assert last in tagged;
      assert CoarseBucketOf(last.subRegime) == Some(b) <==> last.subRegime == r || last.subRegime == q;
      assert CoarseBucketOf(r) == Some(b) && CoarseBucketOf(q) == Some(b);
    }
  }

  lemma {:induction false} BucketsHoldEveryTrade(tagged: seq<TaggedTrade>, x: Trade)
    ensures multiset(Trades(tagged))[x]
         == Times(tagged, Coarse, Some(Bull), x) + Times(tagged, Coarse, Some(Bear), x)
            + Times(tagged, Coarse, Some(Chop), x) + Times(tagged, Coarse, None, x)
  {
    if tagged != [] {
      var rest, last := tagged[..|tagged| - 1], tagged[|tagged| - 1];
      BucketsHoldEveryTrade(rest, x);
      assert Trades(tagged) == Trades(rest) + [last.trade];
      match Coarse(last)
      case None => assert Coarse(last) == None;
      case Some(Bull) => assert Coarse(last) == Some(Bull);
      case Some(Bear) => assert Coarse(last) == Some(Bear);
      case Some(Chop) => assert Coarse(last) == Some(Chop);
    }
  }

  /** Each coarse bucket holds exactly the trades of its two regimes. */
  lemma {:induction false} CoarseIsUnionOfFine(tagged: seq<TaggedTrade>, b: CoarseBucket, r: SubRegime, q: SubRegime)
    requires forall t :: t in tagged ==> t.Valid()
    requires r != q && forall s :: CoarseBucketOf(s) == Some(b) <==> s == r || s == q
    ensures multiset(In(tagged, Coarse, Some(b)))
        == multiset(In(tagged, Fine, Some(r))) + multiset(In(tagged, Fine, Some(q)))
  {
    hide In, Times, Coarse, Fine;
    forall x ensures multiset(In(tagged, Coarse, Some(b)))[x]
                  == (multiset(In(tagged, Fine, Some(r))) + multiset(In(tagged, Fine, Some(q))))[x]
    {
      TimesIn(tagged, Coarse, Some(b), x);
      TimesIn(tagged, Fine, Some(r), x);
      TimesIn(tagged, Fine, Some(q), x);
      BucketIsTwoRegimes(tagged, b, r, q, x);
    }
  }

  /** The coarse buckets and the trades of undefined regime account for every trade, once. */
  lemma {:induction false} EveryTradeIsInOneBucket(tagged: seq<TaggedTrade>)
    ensures multiset(Trades(tagged))
         == multiset(In(tagged, Coarse, Some(Bull))) + multiset(In(tagged, Coarse, Some(Bear)))
            + multiset(In(tagged, Coarse, Some(Chop))) + multiset(In(tagged, Coarse, None))
  {
    hide *;
    forall x ensures multiset(Trades(tagged))[x]
                  == (multiset(In(tagged, Coarse, Some(Bull))) + multiset(In(tagged, Coarse, Some(Bear)))
                      + multiset(In(tagged, Coarse, Some(Chop))) + multiset(In(tagged, Coarse, None)))[x]
    {
      TimesIn(tagged, Coarse, Some(Bull), x);
      TimesIn(tagged, Coarse, Some(Bear), x);
      TimesIn(tagged, Coarse, Some(Chop), x);
      TimesIn(tagged, Coarse, None, x);
      BucketsHoldEveryTrade(tagged, x);
    }
  }
}
