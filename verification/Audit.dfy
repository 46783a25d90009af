/** The two leakage audits (research/features/audit.py). */
module Audit {
  import opened Wrappers
  import opened Series
  import opened FeatureStore

  /** One finding; the future-invariance audit measures no leak size. */
  datatype Finding = Finding(askedAt: int, leakMs: Option<int>)

  datatype LeakageReport = LeakageReport(instantsChecked: nat, findings: seq<Finding>) {
    predicate Clean() {
      findings == []
    }

    /** The largest measured leak, 0 if none. */
    function WorstLeakMs(): int {
      WorstOf(findings)
    }
  }

  function WorstOf(findings: seq<Finding>): (w: int)
    ensures forall f :: f in findings && f.leakMs.Some? && 0 <= f.leakMs.value ==> f.leakMs.value <= w
    ensures w == 0 || exists f :: f in findings && f.leakMs == Some(w)
  {
    if findings == [] then 0 else
    assert findings == [findings[0]] + findings[1..];
    var rest := WorstOf(findings[1..]);
    if findings[0].leakMs.Some? && findings[0].leakMs.value > rest then findings[0].leakMs.value else rest
  }

  function KnowabilityFindings(spec: FeatureSpec, resolver: Resolver, symbol: Option<string>,
                               timestamps: seq<int>): seq<Finding> {
    if timestamps == [] then []
    else
      var ts := timestamps[|timestamps| - 1];
      KnowabilityFindings(spec, resolver, symbol, timestamps[..|timestamps| - 1])
        + (if Leaks(spec, resolver, symbol, ts)
           then [Finding(ts, Some(spec.KnowableAt(resolver(symbol, ts).value.observedAt) - ts))] else [])
  }

  method AuditKnowability(spec: FeatureSpec, resolver: Resolver, timestamps: seq<int>, symbol: Option<string>)
    returns (report: LeakageReport)
    ensures report == LeakageReport(|timestamps|, KnowabilityFindings(spec, resolver, symbol, timestamps))
  {
    var checked: nat := 0;
    var findings: seq<Finding> := [];
    for i := 0 to |timestamps|
      invariant checked == i
      invariant findings == KnowabilityFindings(spec, resolver, symbol, timestamps[..i])
    {
      assert timestamps[..i + 1][..i] == timestamps[..i];
      var ts := timestamps[i];
      checked := checked + 1;
      var observation := resolver(symbol, ts);
      if observation.Some? {
        var knowableAt := spec.KnowableAt(observation.value.observedAt);
        if knowableAt > ts {
          findings := findings + [Finding(ts, Some(knowableAt - ts))];
        }
      }
    }
    assert timestamps[..|timestamps|] == timestamps;
    report := LeakageReport(checked, findings);
  }

  /** A dataset of timestamped records and a way to build a resolver over it. */
  type Dataset<V> = seq<(int, V)>

  function UpTo<V>(observations: Dataset<V>, ts: int): Dataset<V> {
    if observations == [] then []
    else UpTo(observations[..|observations| - 1], ts)
           + (if observations[|observations| - 1].0 <= ts then [observations[|observations| - 1]] else [])
  }

  function InvarianceFindings<V>(build: Dataset<V> -> Resolver, observations: Dataset<V>, symbol: Option<string>,
                                 timestamps: seq<int>): seq<Finding>
  {
    if timestamps == [] then []
    else
      var ts := timestamps[|timestamps| - 1];
      InvarianceFindings(build, observations, symbol, timestamps[..|timestamps| - 1])
        + (if build(observations)(symbol, ts) != build(UpTo(observations, ts))(symbol, ts) then [Finding(ts, None)]
           else [])
  }

  method AuditFutureInvariance<V>(build: Dataset<V> -> Resolver, observations: Dataset<V>, timestamps: seq<int>,
                                  symbol: Option<string>) returns (report: LeakageReport)
    ensures report == LeakageReport(|timestamps|, InvarianceFindings(build, observations, symbol, timestamps))
  {
    var full := build(observations);
    var checked: nat := 0;
    var findings: seq<Finding> := [];
    for i := 0 to |timestamps|
      invariant checked == i
      invariant findings == InvarianceFindings(build, observations, symbol, timestamps[..i])
    {
      assert timestamps[..i + 1][..i] == timestamps[..i];
      var ts := timestamps[i];
      checked := checked + 1;
      var pastOnly := build(UpTo(observations, ts));
      if full(symbol, ts) != pastOnly(symbol, ts) {
        findings := findings + [Finding(ts, None)];
      }
    }
    assert timestamps[..|timestamps|] == timestamps;
    report := LeakageReport(checked, findings);
  }

  /** How many of the instants have a finding, by the given test. */
  function Instants(timestamps: seq<int>, found: int -> bool): seq<int> {
    if timestamps == [] then []
    else Instants(timestamps[..|timestamps| - 1], found)
         + (if found(timestamps[|timestamps| - 1]) then [timestamps[|timestamps| - 1]] else [])
  }

  /** One finding for every instant that leaks, in order, repeated instants included, with how long before
      being knowable the answer was given. */
  lemma {:induction false} FindingsExactly(spec: FeatureSpec, resolver: Resolver, symbol: Option<string>,
                                           timestamps: seq<int>)
    ensures var findings := KnowabilityFindings(spec, resolver, symbol, timestamps);
            var leaking := Instants(timestamps, ts => Leaks(spec, resolver, symbol, ts));
            && |findings| == |leaking|
            && forall i :: 0 <= i < |findings| ==>
                 && findings[i].askedAt == leaking[i] && resolver(symbol, leaking[i]).Some?
                 && findings[i].leakMs
                    == Some(resolver(symbol, leaking[i]).value.observedAt + spec.Delay() - leaking[i])
  {
    if timestamps != [] { FindingsExactly(spec, resolver, symbol, timestamps[..|timestamps| - 1]); }
  }

  /** One finding for every instant at which the later records change the answer. */
  lemma {:induction false} InvarianceFindingsExactly<V>(build: Dataset<V> -> Resolver, observations: Dataset<V>,
                                                        symbol: Option<string>, timestamps: seq<int>)
    ensures var findings := InvarianceFindings(build, observations, symbol, timestamps);
            var changed := Instants(timestamps,
                             ts => build(observations)(symbol, ts) != build(UpTo(observations, ts))(symbol, ts));
            && |findings| == |changed|
            && forall i :: 0 <= i < |findings| ==> findings[i] == Finding(changed[i], None)
  {
    hide UpTo;
    if timestamps != [] { InvarianceFindingsExactly(build, observations, symbol, timestamps[..|timestamps| - 1]); }
  }

  /** The records an audit leaves in are those up to the instant. */
  lemma {:induction false} UpToKeeps<V>(observations: Dataset<V>, ts: int)
    ensures forall o :: o in UpTo(observations, ts) <==> o in observations && o.0 <= ts
  {
    if observations != [] {
      UpToKeeps(observations[..|observations| - 1], ts);
      assert observations == observations[..|observations| - 1] + [observations[|observations| - 1]];
    }
  }

  // ----- knowability and the store -----------------------------------------------------------

  lemma {:induction false} KnowabilityCleanIff(spec: FeatureSpec, resolver: Resolver, symbol: Option<string>,
                                               timestamps: seq<int>)
    ensures KnowabilityFindings(spec, resolver, symbol, timestamps) == []
       <==> forall ts :: ts in timestamps ==> !Leaks(spec, resolver, symbol, ts)
  {
    hide Leaks;
    if timestamps != [] {
      var front, last := timestamps[..|timestamps| - 1], timestamps[|timestamps| - 1];
      KnowabilityCleanIff(spec, resolver, symbol, front);
      assert timestamps == front + [last];
    }
  }

  /** The audit is clean exactly when strict `as_of` on the audited feature raises at none of the
      instants. */
  lemma {:induction false} CleanIffStoreNeverRaises(spec: FeatureSpec, resolver: Resolver, symbol: Option<string>,
                                                    timestamps: seq<int>)
    ensures KnowabilityFindings(spec, resolver, symbol, timestamps) == []
       <==> forall ts :: ts in timestamps ==>
              AsOfNames(map[spec.name := spec], map[spec.name := resolver], [spec.name], symbol, ts, true).Success?
  {
    KnowabilityCleanIff(spec, resolver, symbol, timestamps);
    forall ts ensures Leaks(spec, resolver, symbol, ts)
                 <==> AsOfNames(map[spec.name := spec], map[spec.name := resolver], [spec.name], symbol, ts, true)
                      .Failure?
    {
      StrictRaisesIffLeak(map[spec.name := spec], map[spec.name := resolver], [spec.name], symbol, ts);
    }
  }

  /** The resolver never returns an observation stamped after the query instant. */
  ghost predicate AtOrBeforeOnly(resolver: Resolver) {
    forall symbol: Option<string>, ts: int ::
      resolver(symbol, ts).Some? ==> resolver(symbol, ts).value.observedAt <= ts
  }

  /** Such a resolver can leak by at most interval + publication lag, and every finding is positive. */
  lemma {:induction false} LeakBounded(spec: FeatureSpec, resolver: Resolver, symbol: Option<string>,
                                       timestamps: seq<int>)
    requires AtOrBeforeOnly(resolver)
    ensures forall f :: f in KnowabilityFindings(spec, resolver, symbol, timestamps) ==>
              f.leakMs.Some? && 0 < f.leakMs.value <= spec.Delay()
  {
    if timestamps != [] {
      LeakBounded(spec, resolver, symbol, timestamps[..|timestamps| - 1]);
      assert resolver(symbol, timestamps[|timestamps| - 1]).Some? ==>
          resolver(symbol, timestamps[|timestamps| - 1]).value.observedAt <= timestamps[|timestamps| - 1];
    }
  }

  lemma {:induction false} WorstLeakBounded(spec: FeatureSpec, resolver: Resolver, symbol: Option<string>,
                                            timestamps: seq<int>)
    requires spec.Valid() && AtOrBeforeOnly(resolver)
    ensures 0 <= LeakageReport(|timestamps|, KnowabilityFindings(spec, resolver, symbol, timestamps)).WorstLeakMs()
        <= spec.Delay()
  {
    LeakBounded(spec, resolver, symbol, timestamps);
  }

  // ----- future invariance -------------------------------------------------------------------

  function Times<V>(observations: Dataset<V>): (times: seq<int>)
    ensures |times| == |observations|
    ensures forall i :: 0 <= i < |times| ==> times[i] == observations[i].0
  {
    seq(|observations|, i requires 0 <= i < |observations| => observations[i].0)
  }

  function LatestObservation<V>(observations: Dataset<V>, toValue: V -> Value, ts: int): Option<Observation> {
    var p := BisectRight(Times(observations), ts);
    if p == 0 then None else Some(Observation(toValue(observations[p - 1].1), observations[p - 1].0))
  }

  /** The resolver every channel builds: the latest record at or before the instant. */
  function LatestResolver<V>(observations: Dataset<V>, toValue: V -> Value): Resolver {
    (symbol: Option<string>, ts: int) => LatestObservation(observations, toValue, ts)
  }

  function BuildLatest<V>(toValue: V -> Value): Dataset<V> -> Resolver {
    (observations: Dataset<V>) => LatestResolver(observations, toValue)
  }

  /** If the last time is not later than t, none is. */
  lemma {:induction false} AllUpTo(times: seq<int>, ts: int)
    requires NonDecreasing(times) && times != [] && times[|times| - 1] <= ts
    ensures BisectRight(times[..|times| - 1], ts) == |times| - 1
  {
    BisectUnique(times[..|times| - 1], ts, |times| - 1);
  }

  lemma {:induction false} UpToIsPrefix<V>(observations: Dataset<V>, ts: int)
    requires NonDecreasing(Times(observations))
    ensures UpTo(observations, ts) == observations[..BisectRight(Times(observations), ts)]
  {
    if observations != [] {
      var n := |observations| - 1;
      var times, front := Times(observations), observations[..n];
      assert Times(front) == times[..n];
      assert NonDecreasing(Times(front));
      assert times[n] == observations[n].0;
      assert UpTo(observations, ts) == UpTo(front, ts) + if times[n] <= ts then [observations[n]] else [];
      assert BisectRight(times, ts) == if times[n] <= ts then n + 1 else BisectRight(times[..n], ts);
      if times[n] <= ts { AllUpTo(times, ts); }
      hide *;
      UpToIsPrefix(front, ts);
      if times[n] <= ts {
        assert front[..n] == front;
        assert observations[..n + 1] == observations == front + [observations[n]];
      } else {
        var p := BisectRight(times[..n], ts);
        assert front[..p] == observations[..p];
      }
    }
  }

  lemma {:induction false} LatestIsInvariant<V>(observations: Dataset<V>, toValue: V -> Value, symbol: Option<string>,
                                                ts: int)
    requires NonDecreasing(Times(observations))
    ensures LatestResolver(observations, toValue)(symbol, ts)
        == LatestResolver(UpTo(observations, ts), toValue)(symbol, ts)
  {
    var times := Times(observations);
    var p := BisectRight(times, ts);
    UpToIsPrefix(observations, ts);
    BisectSplits(times, ts);
    assert Times(observations[..p]) == times[..p];
    BisectUnique(times[..p], ts, p);
  }

  /** Latest-at-or-before never shows a future-invariance finding, on any sorted dataset ... */
  lemma {:induction false} LatestPassesInvariance<V>(observations: Dataset<V>, toValue: V -> Value,
                                                     symbol: Option<string>, timestamps: seq<int>)
    requires NonDecreasing(Times(observations))
    ensures InvarianceFindings(BuildLatest(toValue), observations, symbol, timestamps) == []
  {
    if timestamps != [] {
      LatestPassesInvariance(observations, toValue, symbol, timestamps[..|timestamps| - 1]);
      LatestIsInvariant(observations, toValue, symbol, timestamps[|timestamps| - 1]);
    }
  }

  lemma LatestLooksBack<V>(observations: Dataset<V>, toValue: V -> Value)
    requires NonDecreasing(Times(observations))
    ensures AtOrBeforeOnly(LatestResolver(observations, toValue))
  {
    forall symbol: Option<string>, ts: int | LatestResolver(observations, toValue)(symbol, ts).Some?
      ensures LatestResolver(observations, toValue)(symbol, ts).value.observedAt <= ts
    {
      BisectSplits(Times(observations), ts);
    }
  }

  /** What the knowability audit can find in such a resolver over sorted data: leads of more than zero and
      at most interval + publication lag. */
  lemma {:induction false} LatestLeaksBounded<V>(spec: FeatureSpec, observations: Dataset<V>, toValue: V -> Value,
                                                 symbol: Option<string>,
                                                timestamps: seq<int>)
    requires spec.Valid() && NonDecreasing(Times(observations))
    ensures var findings := KnowabilityFindings(spec, LatestResolver(observations, toValue), symbol, timestamps);
            && (forall f :: f in findings ==> f.leakMs.Some? && 0 < f.leakMs.value <= spec.Delay())
            && 0 <= LeakageReport(|timestamps|, findings).WorstLeakMs() <= spec.Delay()
  {
    LatestLooksBack(observations, toValue);
    LeakBounded(spec, LatestResolver(observations, toValue), symbol, timestamps);
    WorstLeakBounded(spec, LatestResolver(observations, toValue), symbol, timestamps);
  }

  /** ... and yet leaks under any interval spec, one millisecond before the bar closes. */
  lemma {:induction false} LatestCanLeak(spec: FeatureSpec, value: Value, openedAt: int)
    requires spec.Valid() && spec.kind == Interval
    ensures var ts := openedAt + spec.Delay() - 1;
            KnowabilityFindings(spec, LatestResolver([(openedAt, value)], (v: Value) => v), None, [ts])
              == [Finding(ts, Some(1))]
  {
    var ts := openedAt + spec.Delay() - 1;
    var observations := [(openedAt, value)];
    assert Times(observations) == [openedAt];
    BisectUnique([openedAt], ts, 1);
    var none: seq<int> := [];
    assert [ts][..0] == none;
    assert KnowabilityFindings(spec, LatestResolver(observations, (v: Value) => v), None, none) == [];
  }

  /** Conversely, a resolver can pass the knowability audit everywhere and read the future: this one
      reports how many records there are, stamped with the oldest of them, once that is knowable. */
  function BuildCount<V>(delay: int): Dataset<V> -> Resolver {
    (observations: Dataset<V>) => (symbol: Option<string>, ts: int) =>
      if observations == [] || ts < observations[0].0 + delay then None
      else Some(Observation(Number(|observations| as real), observations[0].0))
  }

  lemma {:induction false} CountPassesKnowability<V>(spec: FeatureSpec, observations: Dataset<V>,
                                                     symbol: Option<string>, timestamps: seq<int>)
    ensures KnowabilityFindings(spec, BuildCount<V>(spec.Delay())(observations), symbol, timestamps) == []
  {
    if timestamps != [] {
      CountPassesKnowability(spec, observations, symbol, timestamps[..|timestamps| - 1]);
    }
  }

  lemma CountFailsInvariance(spec: FeatureSpec, symbol: Option<string>)
    requires spec.Valid()
    ensures var later := spec.Delay() + 10; var ts := spec.Delay() + 5;
            InvarianceFindings(BuildCount<bool>(spec.Delay()), [(0, true), (later, true)], symbol, [ts])
              == [Finding(ts, None)]
  {
    var later, ts := spec.Delay() + 10, spec.Delay() + 5;
    var observations: Dataset<bool> := [(0, true), (later, true)];
    var none: Dataset<bool> := [];
    assert observations[..1] == [(0, true)] && observations[..1][..0] == none;
    assert UpTo(observations[..1], ts) == UpTo(observations[..1][..0], ts) + [(0, true)];
    assert UpTo(observations, ts) == [(0, true)];
    assert [ts][..0] == [];
  }
}
