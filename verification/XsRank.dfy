/** The cross-sectional rank panel (research/data/xs_rank.py, 91-157). */
module XsRank {
  import opened Sorting
  import opened Series

  /** A symbol's bars: the close at each bar timestamp. */
  type Closes = map<int, real>

  datatype Candidate = Candidate(ret: real, symbol: string)

  /** The universe: the dict's keys in their own order, each with its bars. */
  ghost predicate Universe(names: seq<string>, closes: map<string, Closes>) {
    && names != []
    && (forall n :: n in names ==> n in closes)
    && (forall i, j :: 0 <= i < j < |names| ==> names[i] != names[j])
  }

  function Symbols(names: seq<string>): seq<string> {
    Sort(names, StringLe)
  }

  /** The timestamps every symbol has. */
  function CommonTimes(names: seq<string>, closes: map<string, Closes>): set<int>
    requires names != [] && forall n :: n in names ==> n in closes
  {
    set t | t in closes[names[0]].Keys && forall n :: n in names ==> t in closes[n]
  }

  function Grid(names: seq<string>, closes: map<string, Closes>): seq<int>
    requires names != [] && forall n :: n in names ==> n in closes
  {
    SortedSet(CommonTimes(names, closes))
  }

  function TopCount(fraction: real, universe: nat): int {
    var ceiling := -((-(fraction * (universe as real))).Floor);
    if ceiling < 1 then 1 else ceiling
  }

  /** The number of members: the fraction of the universe rounded up, and at least one. */
  lemma TopCountRoundsUp(fraction: real, universe: nat)
    ensures var top, share := TopCount(fraction, universe), fraction * universe as real;
            1 <= top && share <= top as real && (top == 1 || (top - 1) as real < share)
  {
  }

  /** The trailing return of every symbol whose prior close is positive, in the order given. */
  function Candidates(symbols: seq<string>, closes: map<string, Closes>, prior: int, now: int): seq<Candidate>
    requires forall s :: s in symbols ==> s in closes && prior in closes[s] && now in closes[s]
  {
    if symbols == [] then []
    else
      var s := symbols[|symbols| - 1];
      Candidates(symbols[..|symbols| - 1], closes, prior, now)
        + (if closes[s][prior] > 0.0 then [Candidate(closes[s][now] / closes[s][prior] - 1.0, s)] else [])
  }

  /** Strongest first; Python's reverse sort keeps ties in their original order. */
  predicate RetGe(a: Candidate, b: Candidate) {
    a.ret >= b.ret
  }

  function Take<T>(s: seq<T>, n: int): seq<T> {
    if n <= 0 then [] else if n < |s| then s[..n] else s
  }

  function Leaders(candidates: seq<Candidate>, top: int): seq<Candidate> {
    Take(Sort(candidates, RetGe), top)
  }

  predicate Led(leaders: seq<Candidate>, symbol: string) {
    exists c :: c in leaders && c.symbol == symbol
  }

  /** Membership of a symbol at grid position i. */
  predicate Member(names: seq<string>, closes: map<string, Closes>, lookback: nat, top: int, symbol: string, i: nat)
    requires Universe(names, closes) && i < |Grid(names, closes)|
  {
    lookback <= i &&
    (GridIsCommon(names, closes);
     Led(Leaders(Candidates(Symbols(names), closes, Grid(names, closes)[i - lookback], Grid(names, closes)[i]), top),
       symbol))
  }

  lemma GridIsCommon(names: seq<string>, closes: map<string, Closes>)
    requires Universe(names, closes)
    ensures Ascending(Grid(names, closes))
    ensures forall t :: t in Grid(names, closes) <==> forall n :: n in names ==> t in closes[n]
    ensures forall s :: s in Symbols(names) <==> s in names
    ensures forall k, s :: 0 <= k < |Grid(names, closes)| && s in Symbols(names) ==>
              s in closes && Grid(names, closes)[k] in closes[s]
  {
    SortedSetAscending(CommonTimes(names, closes));
    SortKeepsElements(names, StringLe);
    assert names[0] in names;
    forall k, s | 0 <= k < |Grid(names, closes)| && s in Symbols(names) ensures Grid(names, closes)[k] in closes[s] {
      assert Grid(names, closes)[k] in Grid(names, closes);
    }
  }

  // ----- the panel -----------------------------------------------------------------------------

  type Membership = map<string, seq<bool>>

  /** The nested loops of `compute_panel`. */
  method ComputePanel(names: seq<string>, closes: map<string, Closes>, lookback: nat, fraction: real)
    returns (panel: map<string, TimeSeries<bool>>)
    requires Universe(names, closes)
    ensures forall s :: s in panel <==> s in names
    ensures forall s :: s in names ==>
              && panel[s].times == Grid(names, closes)
              && |panel[s].values| == |panel[s].times|
              && forall i :: 0 <= i < |panel[s].times| ==>
                   panel[s].values[i] == Member(names, closes, lookback, TopCount(fraction, |names|), s, i)
  {
    hide Leaders, Candidates, SortedSet, Sort, TopCount, Led;
    var symbols := Symbols(names);
    var common := Grid(names, closes);
    var n := |common|;
    var top := TopCount(fraction, |names|);
    GridIsCommon(names, closes);
    var membership: Membership := map s | s in names :: seq(n, _ => false);
    var i := lookback;
    while i < n
      invariant forall s :: s in membership <==> s in names
      invariant forall s :: s in names ==> |membership[s]| == n
      invariant forall s, k :: s in names && 0 <= k < n ==>
                  membership[s][k] == (k < i && Member(names, closes, lookback, top, s, k))
    {
      var candidates := Candidates(symbols, closes, common[i - lookback], common[i]);
      CandidatesAreSymbols(symbols, closes, common[i - lookback], common[i], top);
      var leaders := Leaders(candidates, top);
      assert forall s :: s in names ==> Member(names, closes, lookback, top, s, i) == Led(leaders, s);
      membership := MarkLeaders(membership, leaders, i, n);
      i := i + 1;
    }
    panel := map s | s in names :: TimeSeries(common, membership[s]);
  }

  /** Set position i of every leader. */
  method MarkLeaders(before: Membership, leaders: seq<Candidate>, i: nat, n: nat) returns (after: Membership)
    requires i < n && (forall s :: s in before ==> |before[s]| == n && !before[s][i])
    requires forall c :: c in leaders ==> c.symbol in before
    ensures forall s :: s in after <==> s in before
    ensures forall s :: s in before ==> after[s] == before[s][i := Led(leaders, s)]
  {
    after := before;
    for j := 0 to |leaders|
      invariant forall s :: s in after <==> s in before
      invariant forall s :: s in before ==> after[s] == before[s][i := Led(leaders[..j], s)]
    {
      var symbol := leaders[j].symbol;
      assert leaders[j] in leaders;
      assert leaders[..j + 1] == leaders[..j] + [leaders[j]];
      after := after[symbol := after[symbol][i := true]];
    }
    assert leaders[..|leaders|] == leaders;
  }

  lemma {:induction false} CandidateSymbols(symbols: seq<string>, closes: map<string, Closes>, prior: int, now: int)
    requires forall s :: s in symbols ==> s in closes && prior in closes[s] && now in closes[s]
    ensures forall c :: c in Candidates(symbols, closes, prior, now)
                   <==> && c.symbol in symbols && closes[c.symbol][prior] > 0.0
                        && c.ret == closes[c.symbol][now] / closes[c.symbol][prior] - 1.0
  {
    if symbols != [] {
      CandidateSymbols(symbols[..|symbols| - 1], closes, prior, now);
      assert symbols == symbols[..|symbols| - 1] + [symbols[|symbols| - 1]];
    }
  }

  lemma {:induction false} CandidatesAreSymbols(symbols: seq<string>, closes: map<string, Closes>, prior: int, now: int,
                                                top: int)
    requires forall s :: s in symbols ==> s in closes && prior in closes[s] && now in closes[s]
    ensures forall c :: c in Leaders(Candidates(symbols, closes, prior, now), top) ==> c.symbol in symbols
  {
    CandidateSymbols(symbols, closes, prior, now);
    SortKeepsElements(Candidates(symbols, closes, prior, now), RetGe);
  }

  // ----- what the selection means -----------------------------------------------------------------

  predicate Before(a: Candidate, b: Candidate) {
    a.symbol != b.symbol && StringLe(a.symbol, b.symbol)
  }

  /** The order of the ranking: a higher return, or the same return and an earlier symbol. */
  predicate Beats(a: Candidate, b: Candidate) {
    a.ret > b.ret || (a.ret == b.ret && Before(a, b))
  }

  lemma {:induction false} SymbolsOrdered(names: seq<string>)
    requires forall i, j :: 0 <= i < j < |names| ==> names[i] != names[j]
    ensures Pairwise(Symbols(names), (a: string, b: string) => a != b && StringLe(a, b))
  {
    StringOrder();
    SortSorts(names, StringLe);
    SortKeepsSymmetric(names, StringLe, (a: string, b: string) => a != b);
    var sorted := Symbols(names);
    forall i, j | 0 <= i < j < |sorted| ensures sorted[i] != sorted[j] && StringLe(sorted[i], sorted[j]) {
      assert ((a: string, b: string) => a != b)(sorted[i], sorted[j]);
    }
  }

  lemma StringOrder()
    ensures TotalPreorder(StringLe)
  {
    forall a: string, b: string ensures StringLe(a, b) || StringLe(b, a) { StringLeTotal(a, b); }
    forall a: string, b: string, c: string | StringLe(a, b) && StringLe(b, c) ensures StringLe(a, c) {
      StringLeTransitive(a, b, c);
    }
  }

  lemma {:induction false} CandidatesOrdered(symbols: seq<string>, closes: map<string, Closes>, prior: int, now: int)
    requires forall s :: s in symbols ==> s in closes && prior in closes[s] && now in closes[s]
    requires Pairwise(symbols, (a: string, b: string) => a != b && StringLe(a, b))
    ensures Pairwise(Candidates(symbols, closes, prior, now), Before)
  {
    if symbols != [] {
      var front, last := symbols[..|symbols| - 1], symbols[|symbols| - 1];
      forall i, j | 0 <= i < j < |front|
        ensures ((a: string, b: string) => a != b && StringLe(a, b))(front[i], front[j])
      {
        assert ((a: string, b: string) => a != b && StringLe(a, b))(symbols[i], symbols[j]);
      }
      CandidatesOrdered(front, closes, prior, now);
      CandidateSymbols(front, closes, prior, now);
      var cs := Candidates(front, closes, prior, now);
      forall c, r | c in cs ensures Before(c, Candidate(r, last)) {
        var i :| 0 <= i < |front| && front[i] == c.symbol by { assert c.symbol in front; }
        assert ((a: string, b: string) => a != b && StringLe(a, b))(symbols[i], last);
      }
    }
  }

  lemma {:induction false} RankingIsStrict(candidates: seq<Candidate>)
    requires Pairwise(candidates, Before)
    ensures Pairwise(Sort(candidates, RetGe), Beats)
  {
    SortStable(candidates, RetGe, Before);
    var sorted := Sort(candidates, RetGe);
    forall i, j | 0 <= i < j < |sorted| ensures Beats(sorted[i], sorted[j]) {
      assert StableOrder(RetGe, Before)(sorted[i], sorted[j]);
    }
  }

  function Elements<T>(s: seq<T>): set<T> {
    set x | x in s
  }

  lemma {:induction false} DistinctCount<T>(s: seq<T>)
    requires forall i, j :: 0 <= i < j < |s| ==> s[i] != s[j]
    ensures |Elements(s)| == |s|
  {
    if s != [] {
      var front, last := s[..|s| - 1], s[|s| - 1];
      DistinctCount(front);
      assert s == front + [last];
      assert Elements(s) == Elements(front) + {last};
    } else {
      assert Elements(s) == {};
    }
  }

  /** The candidates ranked above c. */
  function Above(candidates: seq<Candidate>, c: Candidate): set<Candidate> {
    set d | d in candidates && Beats(d, c)
  }

  lemma BeatsAsymmetric(a: Candidate, b: Candidate)
    requires Beats(a, b)
    ensures !Beats(b, a)
  {
    StringLeTotal(a.symbol, b.symbol);
  }

  /** In a ranking, the candidates above the one at position k are exactly the k before it. */
  lemma RankIsPosition(sorted: seq<Candidate>, k: nat)
    requires k < |sorted| && Pairwise(sorted, Beats)
    ensures |Above(sorted, sorted[k])| == k
    ensures forall i, j :: 0 <= i < j < |sorted| ==> sorted[i] != sorted[j]
  {
    forall i, j | 0 <= i < j < |sorted| ensures sorted[i] != sorted[j] {
      if sorted[i] == sorted[j] { BeatsAsymmetric(sorted[i], sorted[j]); }
    }
    forall d ensures d in Above(sorted, sorted[k]) <==> d in sorted[..k] {
      if d in sorted && Beats(d, sorted[k]) {
        var i :| 0 <= i < |sorted| && sorted[i] == d;
        if k <= i {
          if k < i { BeatsAsymmetric(sorted[k], sorted[i]); } else { BeatsAsymmetric(d, d); }
        }
        assert sorted[..k][i] == d;
      }
    }
    assert Above(sorted, sorted[k]) == Elements(sorted[..k]);
    DistinctCount(sorted[..k]);
  }

  /** The selection in its own terms: a candidate leads if and only if fewer than `top` candidates
      rank above it; and min(top, number of candidates) lead. */
  lemma LeadersExactly(candidates: seq<Candidate>, top: int)
    requires Pairwise(candidates, Before) && 1 <= top
    ensures forall c :: c in candidates ==> (c in Leaders(candidates, top) <==> |Above(candidates, c)| < top)
    ensures forall c :: c in Leaders(candidates, top) ==> c in candidates
    ensures |Elements(Leaders(candidates, top))| == if |candidates| < top then |candidates| else top
  {
    var sorted := Sort(candidates, RetGe);
    RankingIsStrict(candidates);
    SortKeepsElements(candidates, RetGe);
    SortKeepsLength(candidates, RetGe);
    hide Sort;
    if sorted != [] { RankIsPosition(sorted, 0); }
    forall c | c in candidates ensures c in Leaders(candidates, top) <==> |Above(candidates, c)| < top {
      SameAbove(sorted, candidates, c);
      LeadsByRank(sorted, top, c);
    }
    hide Above;
    DistinctCount(Leaders(candidates, top));
  }

  lemma SameAbove(a: seq<Candidate>, b: seq<Candidate>, c: Candidate)
    requires forall d :: d in a <==> d in b
    ensures Above(a, c) == Above(b, c)
  {
  }

  /** In a strict ranking the first `top` are those with fewer than `top` above them. */
  lemma LeadsByRank(sorted: seq<Candidate>, top: int, c: Candidate)
    requires Pairwise(sorted, Beats) && 1 <= top && c in sorted
    ensures c in (if top < |sorted| then sorted[..top] else sorted) <==> |Above(sorted, c)| < top
  {
    var k :| 0 <= k < |sorted| && sorted[k] == c;
    RankIsPosition(sorted, k);
    hide Above;
    if top < |sorted| {
      if c in sorted[..top] {
        var j :| 0 <= j < top && sorted[j] == c;
      }
      if k < top { assert sorted[..top][k] == c; }
    }
  }

  // ----- the panel's promise -------------------------------------------------------------------------

  function PriorClose(names: seq<string>, closes: map<string, Closes>, lookback: nat, symbol: string, i: nat): real
    requires Universe(names, closes) && lookback <= i < |Grid(names, closes)| && symbol in names
  {
    GridIsCommon(names, closes);
    assert symbol in Symbols(names);
    closes[symbol][Grid(names, closes)[i - lookback]]
  }

  /** The trailing return the symbol is ranked by. */
  function TrailingReturn(names: seq<string>, closes: map<string, Closes>, lookback: nat, symbol: string, i: nat): real
    requires Universe(names, closes) && lookback <= i < |Grid(names, closes)| && symbol in names
    requires PriorClose(names, closes, lookback, symbol, i) != 0.0
  {
    GridIsCommon(names, closes);
    assert symbol in Symbols(names);
    closes[symbol][Grid(names, closes)[i]] / PriorClose(names, closes, lookback, symbol, i) - 1.0
  }

  function CandidatesAt(names: seq<string>, closes: map<string, Closes>, lookback: nat, i: nat): seq<Candidate>
    requires Universe(names, closes) && lookback <= i < |Grid(names, closes)|
  {
    GridIsCommon(names, closes);
    Candidates(Symbols(names), closes, Grid(names, closes)[i - lookback], Grid(names, closes)[i])
  }

  lemma CandidatesAtMeaning(names: seq<string>, closes: map<string, Closes>, lookback: nat, i: nat)
    requires Universe(names, closes) && lookback <= i < |Grid(names, closes)|
    ensures Pairwise(CandidatesAt(names, closes, lookback, i), Before)
    ensures forall c :: c in CandidatesAt(names, closes, lookback, i)
                   <==> && c.symbol in names && PriorClose(names, closes, lookback, c.symbol, i) > 0.0
                        && c.ret == TrailingReturn(names, closes, lookback, c.symbol, i)
  {
    GridIsCommon(names, closes);
    SymbolsOrdered(names);
    CandidatesOrdered(Symbols(names), closes, Grid(names, closes)[i - lookback], Grid(names, closes)[i]);
    CandidateSymbols(Symbols(names), closes, Grid(names, closes)[i - lookback], Grid(names, closes)[i]);
  }

  function SymbolsOf(candidates: seq<Candidate>): seq<string> {
    seq(|candidates|, i requires 0 <= i < |candidates| => candidates[i].symbol)
  }

  lemma SymbolsOfElements(candidates: seq<Candidate>)
    ensures forall s :: s in Elements(SymbolsOf(candidates)) <==> Led(candidates, s)
  {
    forall s ensures s in SymbolsOf(candidates) <==> Led(candidates, s) {
      if Led(candidates, s) {
        var c :| c in candidates && c.symbol == s;
        var i :| 0 <= i < |candidates| && candidates[i] == c;
        assert SymbolsOf(candidates)[i] == s;
      }
      if s in SymbolsOf(candidates) {
        var i :| 0 <= i < |candidates| && SymbolsOf(candidates)[i] == s;
        assert candidates[i] in candidates;
      }
    }
  }

  predicate DifferentSymbols(a: Candidate, b: Candidate) {
    a.symbol != b.symbol
  }

  lemma SymbolCount(candidates: seq<Candidate>)
    requires Pairwise(candidates, DifferentSymbols)
    ensures |Elements(SymbolsOf(candidates))| == |candidates|
  {
    forall i, j | 0 <= i < j < |candidates| ensures SymbolsOf(candidates)[i] != SymbolsOf(candidates)[j] {
      assert DifferentSymbols(candidates[i], candidates[j]);
    }
    DistinctCount(SymbolsOf(candidates));
  }

  lemma LeadersDiffer(candidates: seq<Candidate>, top: int)
    requires Pairwise(candidates, Before) && 1 <= top
    ensures Pairwise(candidates, DifferentSymbols) && Pairwise(Leaders(candidates, top), DifferentSymbols)
    ensures |Leaders(candidates, top)| == if |candidates| < top then |candidates| else top
  {
    forall i, j | 0 <= i < j < |candidates| ensures DifferentSymbols(candidates[i], candidates[j]) {
      assert Before(candidates[i], candidates[j]);
    }
    SortKeepsLength(candidates, RetGe);
    SortKeepsSymmetric(candidates, RetGe, DifferentSymbols);
  }

  /** After warm-up exactly min(top count, symbols with a positive prior close) symbols are members. */
  lemma MemberCount(names: seq<string>, closes: map<string, Closes>, lookback: nat, top: int, i: nat)
    requires Universe(names, closes) && lookback <= i < |Grid(names, closes)| && 1 <= top
    ensures var members := set s | s in names && Member(names, closes, lookback, top, s, i);
            var rankable := set s | s in names && PriorClose(names, closes, lookback, s, i) > 0.0;
            |members| == if |rankable| < top then |rankable| else top
  {
    var candidates := CandidatesAt(names, closes, lookback, i);
    CandidatesAtMeaning(names, closes, lookback, i);
    LeadersDiffer(candidates, top);
    SymbolCount(candidates);
    SymbolCount(Leaders(candidates, top));
    MembersAreLed(names, closes, lookback, top, i);
    hide *;
    assert (set s | s in names && Member(names, closes, lookback, top, s, i))
      == Elements(SymbolsOf(Leaders(candidates, top)));
    assert (set s | s in names && PriorClose(names, closes, lookback, s, i) > 0.0) == Elements(SymbolsOf(candidates));
  }

  lemma MembersAreLed(names: seq<string>, closes: map<string, Closes>, lookback: nat, top: int, i: nat)
    requires Universe(names, closes) && lookback <= i < |Grid(names, closes)| && 1 <= top
    ensures var candidates := CandidatesAt(names, closes, lookback, i);
            forall s ::
              && (s in Elements(SymbolsOf(Leaders(candidates, top)))
                  <==> s in names && Member(names, closes, lookback, top, s, i))
              && (s in Elements(SymbolsOf(candidates))
                  <==> s in names && PriorClose(names, closes, lookback, s, i) > 0.0)
  {
    var candidates := CandidatesAt(names, closes, lookback, i);
    CandidatesAtMeaning(names, closes, lookback, i);
    LeadersExactly(candidates, top);
    SymbolsOfElements(candidates);
    SymbolsOfElements(Leaders(candidates, top));
    hide Leaders, Grid, Candidates, Symbols, Elements, SymbolsOf;
    forall s
      ensures s in Elements(SymbolsOf(Leaders(candidates, top)))
         <==> s in names && Member(names, closes, lookback, top, s, i)
      ensures s in Elements(SymbolsOf(candidates)) <==> s in names && PriorClose(names, closes, lookback, s, i) > 0.0
    {
      if s in names && PriorClose(names, closes, lookback, s, i) > 0.0 {
        assert Candidate(TrailingReturn(names, closes, lookback, s, i), s) in candidates;
      }
    }
  }

  /** No rankable outsider has a higher trailing return than a member. */
  lemma {:induction false} MembersRankHighest(names: seq<string>, closes: map<string, Closes>, lookback: nat, top: int,
                                              i: nat, s: string,
                                             t: string)
    requires Universe(names, closes) && lookback <= i < |Grid(names, closes)| && 1 <= top
    requires s in names && t in names
    requires Member(names, closes, lookback, top, s, i) && !Member(names, closes, lookback, top, t, i)
    requires PriorClose(names, closes, lookback, t, i) > 0.0
    ensures PriorClose(names, closes, lookback, s, i) > 0.0
    ensures TrailingReturn(names, closes, lookback, s, i) >= TrailingReturn(names, closes, lookback, t, i)
    ensures TrailingReturn(names, closes, lookback, s, i) == TrailingReturn(names, closes, lookback, t, i)
        ==> StringLe(s, t)
  {
    var candidates := CandidatesAt(names, closes, lookback, i);
    CandidatesAtMeaning(names, closes, lookback, i);
    LeadersExactly(candidates, top);
    var c :| c in Leaders(candidates, top) && c.symbol == s;
    var d := Candidate(TrailingReturn(names, closes, lookback, t, i), t);
    assert d in candidates && d !in Leaders(candidates, top);
    if Beats(d, c) {
      AboveGrows(candidates, d, c);
    }
    StringLeTotal(s, t);
  }

  /** Whatever ranks above d ranks above everything d ranks above, and so does d itself. */
  lemma AboveGrows(candidates: seq<Candidate>, d: Candidate, c: Candidate)
    requires d in candidates && Beats(d, c)
    ensures |Above(candidates, d)| < |Above(candidates, c)|
  {
    forall e | e in Above(candidates, d) ensures e in Above(candidates, c) {
      if e.ret == d.ret == c.ret {
        StringLeTransitive(e.symbol, d.symbol, c.symbol);
        StringLeTotal(e.symbol, d.symbol);
      }
    }
    assert d in Above(candidates, c) && d !in Above(candidates, d) by {
      if Beats(d, d) { BeatsAsymmetric(d, d); }
    }
    StrictSubsetSmaller(Above(candidates, d), Above(candidates, c), d);
  }

  lemma StrictSubsetSmaller<T>(a: set<T>, b: set<T>, x: T)
    requires a <= b && x in b && x !in a
    ensures |a| < |b|
  {
    SubsetCount(a, b - {x});
  }

  lemma {:induction false} SubsetCount<T>(a: set<T>, b: set<T>)
    requires a <= b
    ensures |a| <= |b|
  {
    assert b == a + (b - a);
  }

  // ----- no look-ahead -----------------------------------------------------------------------------

  /** Two datasets that show the same bars up to and including t. */
  ghost predicate SameUpTo(names: seq<string>, closes: map<string, Closes>, other: map<string, Closes>, t: int) {
    forall n, u :: n in names && n in closes && n in other && u <= t ==>
      (u in closes[n] <==> u in other[n]) && (u in closes[n] ==> closes[n][u] == other[n][u])
  }

  /** Two ascending lists with the same elements up to t agree position by position up to t. */
  lemma {:induction false} AscendingPrefix(a: seq<int>, b: seq<int>, t: int, i: nat)
    requires Ascending(a) && Ascending(b) && (forall x :: x <= t ==> (x in a <==> x in b))
    requires i < |a| && a[i] <= t
    ensures i < |b| && a[..i + 1] == b[..i + 1]
  {
    assert a[i] in a;
    var j :| 0 <= j < |b| && b[j] == a[i];
    if i == 0 {
      assert b[0] in b;
      var k :| 0 <= k < |a| && a[k] == b[0];
      assert b[0] == a[0];
    } else {
      AscendingPrefix(a, b, t, i - 1);
      forall m | 0 <= m < i ensures a[m] == b[m] {
        assert a[..i][m] == b[..i][m];
      }
      assert i <= j;
      assert b[i] in b;
      var k :| 0 <= k < |a| && a[k] == b[i];
      assert i <= k;
      assert b[i] == a[i];
      assert a[..i + 1] == a[..i] + [a[i]] && b[..i + 1] == b[..i] + [b[i]];
    }
  }

  lemma SameGrid(names: seq<string>, closes: map<string, Closes>, other: map<string, Closes>, t: int, i: nat)
    requires Universe(names, closes) && Universe(names, other) && SameUpTo(names, closes, other, t)
    requires i < |Grid(names, closes)| && Grid(names, closes)[i] <= t
    ensures i < |Grid(names, other)| && Grid(names, closes)[..i + 1] == Grid(names, other)[..i + 1]
  {
    GridIsCommon(names, closes);
    GridIsCommon(names, other);
    AscendingPrefix(Grid(names, closes), Grid(names, other), t, i);
  }

  lemma {:induction false} SameCandidates(symbols: seq<string>, closes: map<string, Closes>, other: map<string, Closes>,
                                          prior: int, now: int)
    requires forall s :: s in symbols ==> s in closes && prior in closes[s] && now in closes[s]
    requires forall s :: s in symbols ==>
               && s in other && prior in other[s] && now in other[s]
               && other[s][prior] == closes[s][prior] && other[s][now] == closes[s][now]
    ensures Candidates(symbols, closes, prior, now) == Candidates(symbols, other, prior, now)
  {
    if symbols != [] {
      SameCandidates(symbols[..|symbols| - 1], closes, other, prior, now);
      assert symbols[|symbols| - 1] in symbols;
    }
  }

  /** Membership at a grid time depends only on bars at or before it: extending or changing any
      series after t changes no membership at a grid time up to t. */
  lemma RankIsCausal(names: seq<string>, closes: map<string, Closes>, other: map<string, Closes>, t: int,
                     lookback: nat, top: int, symbol: string, i: nat)
    requires Universe(names, closes) && Universe(names, other) && SameUpTo(names, closes, other, t)
    requires i < |Grid(names, closes)| && Grid(names, closes)[i] <= t
    ensures i < |Grid(names, other)| && Grid(names, other)[i] == Grid(names, closes)[i]
    ensures Member(names, closes, lookback, top, symbol, i) == Member(names, other, lookback, top, symbol, i)
  {
    SameGrid(names, closes, other, t, i);
    GridIsCommon(names, closes);
    GridIsCommon(names, other);
    var grid, grid' := Grid(names, closes), Grid(names, other);
    assert grid[..i + 1][i] == grid'[..i + 1][i];
    if lookback <= i {
      assert grid[..i + 1][i - lookback] == grid'[..i + 1][i - lookback];
      var prior, now := grid[i - lookback], grid[i];
      assert prior <= now;
      hide Grid, Candidates, Leaders, Symbols, Led;
      forall s | s in Symbols(names)
        ensures other[s][prior] == closes[s][prior] && other[s][now] == closes[s][now] { }
      SameCandidates(Symbols(names), closes, other, prior, now);
    }
  }
}
