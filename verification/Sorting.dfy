/** Python's `sorted`: a stable sort, the order of strings, and the sorted list of a set. */
module Sorting {

  ghost predicate TotalPreorder<T(!new)>(le: (T, T) -> bool) {
    && (forall x, y :: le(x, y) || le(y, x))
    && (forall x, y, z :: le(x, y) && le(y, z) ==> le(x, z))
  }

  ghost predicate Pairwise<T>(s: seq<T>, r: (T, T) -> bool) {
    forall i, j :: 0 <= i < j < |s| ==> r(s[i], s[j])
  }

  /** Put x before the first element it may precede; equal elements keep their order. */
  function Insert<T>(x: T, s: seq<T>, le: (T, T) -> bool): seq<T> {
    if s == [] || le(x, s[0]) then [x] + s else [s[0]] + Insert(x, s[1..], le)
  }

  function Sort<T>(s: seq<T>, le: (T, T) -> bool): seq<T> {
    if s == [] then [] else Insert(s[0], Sort(s[1..], le), le)
  }

  lemma {:induction false} InsertKeepsElements<T>(x: T, s: seq<T>, le: (T, T) -> bool)
    ensures multiset(Insert(x, s, le)) == multiset(s) + multiset{x}
    ensures forall y :: y in Insert(x, s, le) <==> y == x || y in s
  {
    if s != [] && !le(x, s[0]) {
      InsertKeepsElements(x, s[1..], le);
      assert s == [s[0]] + s[1..];
    }
  }

  lemma {:induction false} SortKeepsElements<T>(s: seq<T>, le: (T, T) -> bool)
    ensures multiset(Sort(s, le)) == multiset(s)
    ensures forall y :: y in Sort(s, le) <==> y in s
  {
    hide Insert;
    if s != [] {
      SortKeepsElements(s[1..], le);
      InsertKeepsElements(s[0], Sort(s[1..], le), le);
      assert s == [s[0]] + s[1..];
    }
  }

  lemma {:induction false} SortKeepsLength<T>(s: seq<T>, le: (T, T) -> bool)
    ensures |Sort(s, le)| == |s|
  {
    SortKeepsElements(s, le);
    assert |multiset(Sort(s, le))| == |multiset(s)|;
  }

  /** What a stable sort promises of two elements in this order. */
  function StableOrder<T>(le: (T, T) -> bool, before: (T, T) -> bool): (T, T) -> bool {
    (x, y) => le(x, y) && (le(y, x) ==> before(x, y))
  }

  lemma {:induction false} InsertStable<T(!new)>(x: T, s: seq<T>, le: (T, T) -> bool, before: (T, T) -> bool)
    requires TotalPreorder(le) && Pairwise(s, StableOrder(le, before))
    requires forall y :: y in s ==> before(x, y)
    ensures Pairwise(Insert(x, s, le), StableOrder(le, before))
  {
    if s == [] {
    } else if le(x, s[0]) {
      forall j | 0 <= j < |s| ensures le(x, s[j]) && before(x, s[j]) {
        assert s[j] in s;
        if 0 < j { assert StableOrder(le, before)(s[0], s[j]); }
      }
    } else {
      var rest := s[1..];
      forall i, j | 0 <= i < j < |rest| ensures StableOrder(le, before)(rest[i], rest[j]) {
        assert StableOrder(le, before)(s[i + 1], s[j + 1]);
      }
      InsertStable(x, rest, le, before);
      InsertKeepsElements(x, rest, le);
      var tail := Insert(x, rest, le);
      forall j | 0 <= j < |tail| ensures StableOrder(le, before)(s[0], tail[j]) {
        assert tail[j] in tail;
        if tail[j] != x {
          var k :| 0 <= k < |rest| && rest[k] == tail[j];
          assert StableOrder(le, before)(s[0], s[k + 1]);
        }
      }
    }
  }

  /** The result is in order, and ties keep the relation the input had between them. */
  lemma {:induction false} SortStable<T(!new)>(s: seq<T>, le: (T, T) -> bool, before: (T, T) -> bool)
    requires TotalPreorder(le) && Pairwise(s, before)
    ensures Pairwise(Sort(s, le), StableOrder(le, before))
  {
    if s != [] {
      forall i, j | 0 <= i < j < |s[1..]| ensures before(s[1..][i], s[1..][j]) {
        assert before(s[i + 1], s[j + 1]);
      }
      SortStable(s[1..], le, before);
      SortKeepsElements(s[1..], le);
      forall y | y in Sort(s[1..], le) ensures before(s[0], y) {
        var k :| 0 <= k < |s[1..]| && s[1..][k] == y;
        assert before(s[0], s[k + 1]);
      }
      InsertStable(s[0], Sort(s[1..], le), le, before);
    }
  }

  lemma {:induction false} SortSorts<T(!new)>(s: seq<T>, le: (T, T) -> bool)
    requires TotalPreorder(le)
    ensures Pairwise(Sort(s, le), le)
  {
    SortStable(s, le, (x, y) => true);
    forall i, j | 0 <= i < j < |Sort(s, le)| ensures le(Sort(s, le)[i], Sort(s, le)[j]) {
      assert StableOrder(le, (x: T, y: T) => true)(Sort(s, le)[i], Sort(s, le)[j]);
    }
  }

  /** A relation that holds of every two elements, whichever comes first, survives sorting. */
  lemma {:induction false} SortKeepsSymmetric<T(!new)>(s: seq<T>, le: (T, T) -> bool, r: (T, T) -> bool)
    requires forall x, y :: r(x, y) ==> r(y, x)
    requires Pairwise(s, r)
    ensures Pairwise(Sort(s, le), r)
  {
    if s != [] {
      forall i, j | 0 <= i < j < |s[1..]| ensures r(s[1..][i], s[1..][j]) {
        assert r(s[i + 1], s[j + 1]);
      }
      SortKeepsSymmetric(s[1..], le, r);
      SortKeepsElements(s[1..], le);
      forall y | y in Sort(s[1..], le) ensures r(s[0], y) {
        var k :| 0 <= k < |s[1..]| && s[1..][k] == y;
        assert r(s[0], s[k + 1]);
      }
      InsertKeepsSymmetric(s[0], Sort(s[1..], le), le, r);
    }
  }

  lemma {:induction false} InsertKeepsSymmetric<T(!new)>(x: T, s: seq<T>, le: (T, T) -> bool, r: (T, T) -> bool)
    requires forall y, z :: r(y, z) ==> r(z, y)
    requires Pairwise(s, r) && forall y :: y in s ==> r(x, y)
    ensures Pairwise(Insert(x, s, le), r)
  {
    if s != [] && !le(x, s[0]) {
      var rest := s[1..];
      forall i, j | 0 <= i < j < |rest| ensures r(rest[i], rest[j]) {
        assert r(s[i + 1], s[j + 1]);
      }
      InsertKeepsSymmetric(x, rest, le, r);
      InsertKeepsElements(x, rest, le);
      var tail := Insert(x, rest, le);
      forall j | 0 <= j < |tail| ensures r(s[0], tail[j]) {
        assert tail[j] in tail;
        if tail[j] != x {
          var k :| 0 <= k < |rest| && rest[k] == tail[j];
          assert r(s[0], s[k + 1]);
        }
      }
    }
  }

  // ----- strings ----------------------------------------------------------------------

  predicate StringLe(a: string, b: string) {
    a == "" || (b != "" && (a[0] < b[0] || (a[0] == b[0] && StringLe(a[1..], b[1..]))))
  }

  lemma {:induction false} StringLeTotal(a: string, b: string)
    ensures StringLe(a, b) || StringLe(b, a)
    ensures StringLe(a, b) && StringLe(b, a) ==> a == b
  {
    if a != "" && b != "" && a[0] == b[0] {
      StringLeTotal(a[1..], b[1..]);
      assert a == [a[0]] + a[1..] && b == [b[0]] + b[1..];
    }
  }

  lemma {:induction false} StringLeTransitive(a: string, b: string, c: string)
    requires StringLe(a, b) && StringLe(b, c)
    ensures StringLe(a, c)
  {
    if a != "" && a[0] == b[0] == c[0] {
      StringLeTransitive(a[1..], b[1..], c[1..]);
    }
  }

  // ----- the sorted list of a finite set of integers --------------------------------------

  predicate Ascending(s: seq<int>) {
    forall i, j :: 0 <= i < j < |s| ==> s[i] < s[j]
  }

  lemma FirstElementIn(s: seq<int>)
    ensures s == [] || s[0] in s
  {
  }

  lemma AnElement(s: set<int>) returns (x: int)
    requires s != {}
    ensures x in s
  {
    var empty: set<int> := {};
    assert (forall y :: y in s <==> y in empty) ==> s == empty;
    x :| x in s;
  }

  lemma {:induction false} MinExists(s: set<int>)
    requires s != {}
    ensures exists m :: m in s && forall y :: y in s ==> m <= y
    decreases s
  {
    var x := AnElement(s);
    var rest := s - {x};
    if rest == {} {
      assert s == {x};
    } else {
      MinExists(rest);
      var low :| low in rest && forall y :: y in rest ==> low <= y;
      var m := if low < x then low else x;
      assert forall y :: y in s ==> y == x || y in rest;
      assert m in s && forall y :: y in s ==> m <= y;
    }
  }

  function Min(s: set<int>): (m: int)
    requires s != {}
    ensures m in s && forall y :: y in s ==> m <= y
  {
    MinExists(s);
    var m :| m in s && forall y :: y in s ==> m <= y;
    m
  }

  function SortedSet(s: set<int>): seq<int>
    decreases s
  {
    if s == {} then [] else [Min(s)] + SortedSet(s - {Min(s)})
  }

  lemma {:induction false} SortedSetAscending(s: set<int>)
    ensures Ascending(SortedSet(s))
    ensures forall x :: x in SortedSet(s) <==> x in s
    decreases s
  {
    if s != {} {
      SortedSetAscending(s - {Min(s)});
      var rest := SortedSet(s - {Min(s)});
      forall j | 0 <= j < |rest| ensures Min(s) < rest[j] {
        assert rest[j] in rest;
      }
    }
  }

  /** An ascending list is determined by its elements. */
  lemma {:induction false} AscendingUnique(a: seq<int>, b: seq<int>)
    requires Ascending(a) && Ascending(b)
    requires forall x :: x in a <==> x in b
    ensures a == b
  {
    if a == [] {
      FirstElementIn(b);
    } else {
      assert a[0] in a;
      assert b != [];
      assert b[0] in b;
      var i :| 0 <= i < |b| && b[i] == a[0];
      var j :| 0 <= j < |a| && a[j] == b[0];
      assert a[0] == b[0];
      forall x ensures x in a[1..] <==> x in b[1..] {
        if x in a[1..] {
          var k :| 0 <= k < |a[1..]| && a[1..][k] == x;
          assert a[k + 1] == x && x in b;
        }
        if x in b[1..] {
          var k :| 0 <= k < |b[1..]| && b[1..][k] == x;
          assert b[k + 1] == x && x in a;
        }
      }
      AscendingUnique(a[1..], b[1..]);
      assert a == [a[0]] + a[1..] && b == [b[0]] + b[1..];
    }
  }
}
