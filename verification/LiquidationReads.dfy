/**
 Which row a read of the liquidation store returns for a key that is stored more than once, and in what
 order (research/data/liquidations.py, 323-357); and what the notional of a parsed event is.
 */
module LiquidationReads {
  import opened Wrappers
  import opened Sorting
  import opened Liquidations

  /** The notional of an accepted event: the product of finite sizes, positive; NaN if one of them is NaN; and
      otherwise infinite. */
  lemma NotionalExactly(f: Frame)
    requires EventOf(f).Some?
    ensures var e := EventOf(f).value;
            && (e.notional.NaN? <==> e.price.NaN? || e.quantity.NaN?)
            && (e.notional == PlusInfinity
                <==> !e.notional.NaN? && (e.price == PlusInfinity || e.quantity == PlusInfinity))
            && (e.price.Finite? && e.quantity.Finite? ==>
                  e.notional == Finite(e.price.value * e.quantity.value) && e.notional.Positive())
  {
    ParsedEventIsSound(f);
    hide EventOf;
  }

  /** The event is the last of the rows with its key. */
  ghost predicate IsLast(rows: seq<Event>, e: Event) {
    exists i :: 0 <= i < |rows| && rows[i] == e && !HasKey(rows[i + 1..], e.DedupKey())
  }

  lemma KeyOfJoin(a: seq<Event>, b: seq<Event>, k: Key)
    ensures HasKey(a + b, k) <==> HasKey(a, k) || HasKey(b, k)
  {
    if HasKey(a, k) {
      var e :| e in a && e.DedupKey() == k;
      assert e in a + b;
    }
    if HasKey(b, k) {
      var e :| e in b && e.DedupKey() == k;
      assert e in a + b;
    }
  }

  /** The last of joined rows is in the second part, or in the first with no such key after it. */
  lemma LastOfJoin(a: seq<Event>, b: seq<Event>, e: Event)
    ensures IsLast(a + b, e) <==> IsLast(b, e) || (IsLast(a, e) && !HasKey(b, e.DedupKey()))
  {
    var k := e.DedupKey();
    if i :| 0 <= i < |a + b| && (a + b)[i] == e && !HasKey((a + b)[i + 1..], k) {
      if i < |a| {
        assert (a + b)[i + 1..] == a[i + 1..] + b;
        KeyOfJoin(a[i + 1..], b, k);
      } else {
        assert (a + b)[i + 1..] == b[i - |a| + 1..];
      }
    }
    if i :| 0 <= i < |b| && b[i] == e && !HasKey(b[i + 1..], k) {
      assert (a + b)[|a| + i] == e && (a + b)[|a| + i + 1..] == b[i + 1..];
    }
    if !HasKey(b, k) {
      if i :| 0 <= i < |a| && a[i] == e && !HasKey(a[i + 1..], k) {
        assert (a + b)[i] == e && (a + b)[i + 1..] == a[i + 1..] + b;
        KeyOfJoin(a[i + 1..], b, k);
      }
    }
  }

  lemma LastOfOne(x: Event, e: Event)
    ensures IsLast([x], e) <==> x == e
  {
    if x == e { assert [x][0] == e && [x][1..] == []; }
  }

  /** The dict of a scan holds the last row of each key. */
  lemma {:induction false} ScanHoldsLast(rows: seq<Event>, t0: int, t1: int, k: Key)
    requires k in Scan(rows, t0, t1).values
    ensures IsLast(rows, Scan(rows, t0, t1).values[k])
  {
    var front, last := rows[..|rows| - 1], rows[|rows| - 1];
    assert rows == front + [last];
    var e := Scan(rows, t0, t1).values[k];
    LastOfJoin(front, [last], e);
    LastOfOne(last, e);
    ScanKeys(rows, t0, t1);
    if last.DedupKey() != k {
      ScanHoldsLast(front, t0, t1, k);
      assert !HasKey([last], k);
    }
  }

  /** In a row of fragments the last row of a key is the last one of some fragment, and no later fragment
      has the key. */
  lemma {:induction false} LastOfFragments(fragments: seq<Fragment>, e: Event)
    requires IsLast(Flatten(fragments), e)
    ensures exists m :: 0 <= m < |fragments| && IsLast(fragments[m].rows, e)
                  && forall n :: m < n < |fragments| ==> !HasKey(fragments[n].rows, e.DedupKey())
  {
    var front, last := fragments[..|fragments| - 1], fragments[|fragments| - 1];
    LastOfJoin(Flatten(front), last.rows, e);
    if !IsLast(last.rows, e) {
      LastOfFragments(front, e);
      var m :| 0 <= m < |front| && IsLast(front[m].rows, e)
                && forall n :: m < n < |front| ==> !HasKey(front[n].rows, e.DedupKey());
      assert fragments[m] == front[m];
      forall n | m < n < |fragments| ensures !HasKey(fragments[n].rows, e.DedupKey()) {
        if n < |front| { assert fragments[n] == front[n]; }
      }
    }
  }

  /** All rows of a key are in the directory of its day, so that its last row is the last one there. */
  lemma {:induction false} LastOfDays(dirs: Directories, first: int, end: int, e: Event)
    requires first <= end && Partitioned(dirs) && IsLast(RowsOfDays(dirs, first, end), e)
    ensures IsLast(RowsRead(dirs, DayOf(e.tradeTimeMs)), e)
    decreases end - first
  {
    hide RowsRead, DayOf, Rows, InCalendar;
    if first < end {
      var before, day := RowsOfDays(dirs, first, end - 1), RowsRead(dirs, end - 1);
      LastOfJoin(before, day, e);
      RowsReadElements(dirs, end - 1);
      if IsLast(day, e) {
        assert e in day;
      } else {
        LastOfDays(dirs, first, end - 1, e);
      }
    }
  }

  lemma NameOrder()
    ensures TotalPreorder(NameLe)
  {
    forall a: Fragment, b: Fragment ensures NameLe(a, b) || NameLe(b, a) {
      StringLeTotal(a.name, b.name);
    }
    forall a: Fragment, b: Fragment, c: Fragment | NameLe(a, b) && NameLe(b, c) ensures NameLe(a, c) {
      StringLeTransitive(a.name, b.name, c.name);
    }
  }

  /** The event is the last row of its key in the fragment, and no fragment with a greater name has the key. */
  ghost predicate LastNamed(fragments: seq<Fragment>, f: Fragment, e: Event) {
    && f in fragments && IsLast(f.rows, e)
    && forall g :: g in fragments && g.name != f.name && StringLe(f.name, g.name) ==> !HasKey(g.rows, e.DedupKey())
  }

  lemma {:induction false} LastByName(fragments: seq<Fragment>, e: Event)
    requires IsLast(Flatten(Sort(fragments, NameLe)), e)
    ensures exists f :: LastNamed(fragments, f, e)
  {
    var sorted := Sort(fragments, NameLe);
    LastOfFragments(sorted, e);
    SortKeepsElements(fragments, NameLe);
    NameOrder();
    SortSorts(fragments, NameLe);
    hide Sort, IsLast, HasKey, Flatten, StringLe, Pairwise;
    var m :| 0 <= m < |sorted| && IsLast(sorted[m].rows, e)
              && forall n :: m < n < |sorted| ==> !HasKey(sorted[n].rows, e.DedupKey());
    GreaterNamesAreLater(sorted, m, e.DedupKey());
    assert sorted[m] in sorted;
    assert LastNamed(fragments, sorted[m], e);
  }

  lemma GreaterNamesAreLater(sorted: seq<Fragment>, m: nat, k: Key)
    requires m < |sorted| && Pairwise(sorted, NameLe)
    requires forall n :: m < n < |sorted| ==> !HasKey(sorted[n].rows, k)
    ensures forall g :: g in sorted && g.name != sorted[m].name && StringLe(sorted[m].name, g.name)
                ==> !HasKey(g.rows, k)
  {
    hide StringLe, HasKey;
    forall g | g in sorted && g.name != sorted[m].name && StringLe(sorted[m].name, g.name) ensures !HasKey(g.rows, k) {
      var n :| 0 <= n < |sorted| && sorted[n] == g;
      assert n < m ==> NameLe(sorted[n], sorted[m]);
      StringLeTotal(sorted[m].name, g.name);
    }
  }

  lemma LastOfADay(dirs: Directories, day: int, e: Event)
    requires IsLast(RowsRead(dirs, day), e)
    ensures day in dirs && exists f :: LastNamed(dirs[day], f, e)
  {
    hide LastNamed;
    if day in dirs { LastByName(dirs[day], e); }
  }

  lemma ValuesAreHeld(d: Dict, e: Event)
    requires d.Consistent() && e in Values(d)
    ensures e.DedupKey() in d.values && d.values[e.DedupKey()] == e
  {
    var i :| 0 <= i < |Values(d)| && Values(d)[i] == e;
    assert d.order[i] in d.order;
  }

  /** A key that was stored more than once is returned as its last row in the directory of its day: in the
      fragment with the greatest file name that has the key, the last such row. The events are in
      order of trade time and, at the same time, of symbol. */
  lemma LastStoredIsRead(dirs: Directories, t0: int, t1: int, e: Event)
    requires t0 <= t1 && Partitioned(dirs) && e in WindowEvents(dirs, t0, t1)
    ensures var day := DayOf(e.tradeTimeMs);
            day in dirs && exists f :: LastNamed(dirs[day], f, e)
    ensures var r := WindowEvents(dirs, t0, t1);
            forall i, j :: 0 <= i < j < |r| ==>
              && r[i].tradeTimeMs <= r[j].tradeTimeMs
              && (r[i].tradeTimeMs == r[j].tradeTimeMs ==> StringLe(r[i].symbol, r[j].symbol))
  {
    DayOfMonotone(t0, t1);
    var first, end := DayOf(t0) - 1, DayOf(t1) + 2;
    var d := Scan(RowsOfDays(dirs, first, end), t0, t1);
    hide DayOf;
    WindowIsExact(dirs, t0, t1);
    hide Partitioned, HasKey, Scan, RowsOfDays, IsLast;
    forall i, j | 0 <= i < j < |WindowEvents(dirs, t0, t1)|
      ensures EventLe(WindowEvents(dirs, t0, t1)[i], WindowEvents(dirs, t0, t1)[j]) {
    }
    SortKeepsElements(Values(d), EventLe);
    ValuesAreHeld(d, e);
    ScanHoldsLast(RowsOfDays(dirs, first, end), t0, t1, e.DedupKey());
    LastOfDays(dirs, first, end, e);
    LastOfADay(dirs, DayOf(e.tradeTimeMs), e);
  }
}
