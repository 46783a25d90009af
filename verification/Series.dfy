/** Lookups in an ascending list of epoch-millisecond timestamps, as `bisect.bisect_right` does them. */
module Series {
  import opened Wrappers

  const HOUR_MS := 3_600_000
  const DAY_MS := 86_400_000

  predicate NonDecreasing(times: seq<int>) {
    forall i, j :: 0 <= i < j < |times| ==> times[i] <= times[j]
  }

  /** The number of leading elements up to the last one that is at most t. */
  function BisectRight(times: seq<int>, t: int): (p: nat)
    ensures p <= |times|
  {
    if times == [] then 0
    else if times[|times| - 1] <= t then |times|
    else BisectRight(times[..|times| - 1], t)
  }

  lemma {:induction false} BisectSplits(times: seq<int>, t: int)
    requires NonDecreasing(times)
    ensures forall k :: 0 <= k < BisectRight(times, t) ==> times[k] <= t
    ensures forall k :: BisectRight(times, t) <= k < |times| ==> t < times[k]
  {
    if times != [] && t < times[|times| - 1] {
      BisectSplits(times[..|times| - 1], t);
    }
  }

  /** The split point is the only position with everything at most t before it and the rest after. */
  lemma {:induction false} BisectUnique(times: seq<int>, t: int, p: nat)
    requires NonDecreasing(times) && p <= |times|
    requires p == 0 || times[p - 1] <= t
    requires p == |times| || t < times[p]
    ensures BisectRight(times, t) == p
  {
    BisectSplits(times, t);
  }

  /** `_at_or_before`: the index of the latest timestamp at or before t. */
  function AtOrBefore(times: seq<int>, t: int): (i: Option<nat>)
    ensures i.Some? ==> i.value < |times|
  {
    var p := BisectRight(times, t);
    if p == 0 then None else Some(p - 1)
  }

  /** A history: ascending timestamps and one value for each. */
  datatype TimeSeries<V> = TimeSeries(times: seq<int>, values: seq<V>) {
    ghost predicate Valid() {
      |times| == |values| && NonDecreasing(times)
    }
  }

  function ValueAt<V>(s: TimeSeries<V>, t: int): Option<V>
    requires s.Valid()
  {
    var i := AtOrBefore(s.times, t);
    if i.None? then None else Some(s.values[i.value])
  }

  /** Asking a little earlier gives the same element, as long as it is old enough. */
  lemma EarlierSameElement(times: seq<int>, t: int, earlier: int)
    requires NonDecreasing(times) && earlier <= t
    requires AtOrBefore(times, t).Some? && times[AtOrBefore(times, t).value] <= earlier
    ensures AtOrBefore(times, earlier) == AtOrBefore(times, t)
  {
    BisectSplits(times, t);
    BisectUnique(times, earlier, BisectRight(times, t));
  }

  /** Later elements do not change the answer: the lookup is causal. */
  lemma {:induction false} LaterElementsIgnored(times: seq<int>, later: seq<int>, t: int)
    requires NonDecreasing(times + later) && (later == [] || t < later[0])
    ensures NonDecreasing(times)
    ensures BisectRight(times + later, t) == BisectRight(times, t)
  {
    forall i, j | 0 <= i < j < |times| ensures times[i] <= times[j] {
      assert (times + later)[i] <= (times + later)[j];
    }
    BisectSplits(times, t);
    BisectUnique(times + later, t, BisectRight(times, t));
  }
}
