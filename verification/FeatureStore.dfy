/**
 The point-in-time feature store (research/features/spec.py, 46-123; research/features/store.py).
 Instants are epoch milliseconds.
 */
module FeatureStore {
  import opened Wrappers

  datatype Kind = Instant | Interval

  datatype FeatureSpec = FeatureSpec(name: string, kind: Kind, interval: Option<int>, publicationLag: int) {
    /** The conditions the source's constructor enforces. */
    predicate Valid() {
      && name != "" && 0 <= publicationLag
      && (if kind == Interval then interval.Some? && 0 < interval.value else interval.None?)
    }

    function IntervalMs(): int {
      if interval.Some? then interval.value else 0
    }

    /** How long after its timestamp an observation becomes knowable. */
    function Delay(): int {
      IntervalMs() + publicationLag
    }

    function KnowableAt(observedAt: int): int {
      observedAt + IntervalMs() + publicationLag
    }
  }

  datatype Value = Number(number: real) | Flag(flag: bool)

  datatype Observation = Observation(value: Value, observedAt: int)

  /** The latest observation a channel would return for a symbol at an instant. */
  type Resolver = (Option<string>, int) -> Option<Observation>

  datatype FeatureValue = FeatureValue(
    name: string, value: Option<Value>, observedAt: Option<int>, knowableAt: Option<int>, askedAt: int)

  datatype StoreError = AlreadyRegistered(name: string) | NotRegistered(name: string) | Leakage(name: string)

  /** The resolver returned something that is not knowable yet. */
  predicate Leaks(spec: FeatureSpec, resolver: Resolver, symbol: Option<string>, ts: int) {
    var o := resolver(symbol, ts);
    o.Some? && ts < spec.KnowableAt(o.value.observedAt)
  }

  /** One feature resolved at an instant; a leak is recorded as missing. */
  function ResolveOne(spec: FeatureSpec, resolver: Resolver, name: string, symbol: Option<string>,
                      ts: int): FeatureValue {
    var o := resolver(symbol, ts);
    if o.None? then FeatureValue(name, None, None, None, ts)
    else
      var knowable := spec.KnowableAt(o.value.observedAt);
      var value := if ts < knowable then None else Some(o.value.value);
      FeatureValue(name, value, Some(o.value.observedAt), Some(knowable), ts)
  }

  type Specs = map<string, FeatureSpec>
  type Resolvers = map<string, Resolver>

  function FirstUnknown(specs: Specs, names: seq<string>): Option<string> {
    if names == [] then None else if names[0] !in specs then Some(names[0]) else FirstUnknown(specs, names[1..])
  }

  function FirstLeak(specs: Specs, resolvers: Resolvers, names: seq<string>, symbol: Option<string>,
                     ts: int): Option<string>
    requires forall n :: n in names ==> n in specs && n in resolvers
  {
    if names == [] then None
    else if Leaks(specs[names[0]], resolvers[names[0]], symbol, ts) then Some(names[0])
    else FirstLeak(specs, resolvers, names[1..], symbol, ts)
  }

  function ResolveAll(specs: Specs, resolvers: Resolvers, names: seq<string>, symbol: Option<string>, ts: int)
    : map<string, FeatureValue>
    requires forall n :: n in names ==> n in specs && n in resolvers
  {
    map n | n in names :: ResolveOne(specs[n], resolvers[n], n, symbol, ts)
  }

  /** What `as_of` does for an explicit list of names. */
  function AsOfNames(specs: Specs, resolvers: Resolvers, names: seq<string>, symbol: Option<string>, ts: int,
                     strict: bool)
    : Result<map<string, FeatureValue>, StoreError>
    requires specs.Keys == resolvers.Keys
  {
    if FirstUnknown(specs, names).Some? then Failure(NotRegistered(FirstUnknown(specs, names).value)) else
    KnownNames(specs, names);
    if strict && FirstLeak(specs, resolvers, names, symbol, ts).Some?
    then Failure(Leakage(FirstLeak(specs, resolvers, names, symbol, ts).value))
    else Success(ResolveAll(specs, resolvers, names, symbol, ts))
  }

  lemma {:induction false} KnownNames(specs: Specs, names: seq<string>)
    ensures FirstUnknown(specs, names).None? <==> forall n :: n in names ==> n in specs
    ensures FirstUnknown(specs, names).Some?
        ==> FirstUnknown(specs, names).value in names && FirstUnknown(specs, names).value !in specs
  {
    if names != [] {
      KnownNames(specs, names[1..]);
      assert names == [names[0]] + names[1..];
    }
  }

  lemma {:induction false} FirstLeakIsALeak(specs: Specs, resolvers: Resolvers, names: seq<string>,
                                            symbol: Option<string>, ts: int)
    requires forall n :: n in names ==> n in specs && n in resolvers
    ensures FirstLeak(specs, resolvers, names, symbol, ts).None?
       <==> forall n :: n in names ==> !Leaks(specs[n], resolvers[n], symbol, ts)
    ensures var first := FirstLeak(specs, resolvers, names, symbol, ts);
            first.Some? ==> first.value in names && Leaks(specs[first.value], resolvers[first.value], symbol, ts)
  {
    if names != [] {
      FirstLeakIsALeak(specs, resolvers, names[1..], symbol, ts);
      assert names == [names[0]] + names[1..];
    }
  }

  type Row = seq<Option<Value>>

  function RowOf(values: map<string, FeatureValue>, names: seq<string>): Row
    requires forall n :: n in names ==> n in values
  {
    seq(|names|, i requires 0 <= i < |names| => values[names[i]].value)
  }

  /** The rows of the matrix, or the failure at the first instant that has one. */
  function MatrixRows(specs: Specs, resolvers: Resolvers, names: seq<string>, symbol: Option<string>,
                      timestamps: seq<int>, strict: bool): Result<seq<Row>, StoreError>
    requires specs.Keys == resolvers.Keys
  {
    if timestamps == [] then Success([]) else
    match MatrixRows(specs, resolvers, names, symbol, timestamps[..|timestamps| - 1], strict)
    case Failure(e) => Failure(e)
    case Success(rows) =>
      match AsOfNames(specs, resolvers, names, symbol, timestamps[|timestamps| - 1], strict)
      case Failure(e) => Failure(e)
      case Success(values) => KnownNames(specs, names); Success(rows + [RowOf(values, names)])
  }

  class PointInTimeFeatureStore {
    var order: seq<string>
    var specs: Specs
    var resolvers: Resolvers

    ghost predicate Valid()
      reads this
    {
      && specs.Keys == resolvers.Keys
      && (forall n :: n in order <==> n in specs)
      && (forall i, j :: 0 <= i < j < |order| ==> order[i] != order[j])
      && (forall n :: n in specs ==> specs[n].name == n && specs[n].Valid())
    }

    constructor ()
      ensures Valid() && order == [] && specs == map[]
    {
      order, specs, resolvers := [], map[], map[];
    }

    /** Register a feature; a second definition of a name is refused. */
    method Register(spec: FeatureSpec, resolver: Resolver) returns (r: Result<(), StoreError>)
      requires Valid() && spec.Valid()
      modifies this
      ensures Valid()
      ensures r == (if spec.name in old(specs) then Failure(AlreadyRegistered(spec.name)) else Success(()))
      ensures r.Failure? ==> order == old(order) && specs == old(specs) && resolvers == old(resolvers)
      ensures r.Success? ==> && order == old(order) + [spec.name]
                             && specs == old(specs)[spec.name := spec]
                             && resolvers == old(resolvers)[spec.name := resolver]
    {
      if spec.name in specs {
        return Failure(AlreadyRegistered(spec.name));
      }
      order := order + [spec.name];
      specs := specs[spec.name := spec];
      resolvers := resolvers[spec.name := resolver];
      r := Success(());
    }

    function Selected(names: Option<seq<string>>): seq<string>
      reads this
    {
      if names.Some? then names.value else order
    }

    /** Resolve features as they were knowable at ts. */
    method AsOf(ts: int, symbol: Option<string>, names: Option<seq<string>>, strict: bool)
      returns (r: Result<map<string, FeatureValue>, StoreError>)
      requires Valid()
      ensures r == AsOfNames(specs, resolvers, if names.Some? then names.value else order, symbol, ts, strict)
    {
      hide FirstUnknown, FirstLeak, ResolveAll;
      var selected := Selected(names);
      var unknown := FindUnknown(selected);
      if unknown.Some? {
        return Failure(NotRegistered(unknown.value));
      }
      KnownNames(specs, selected);
      var resolved, leaking := ResolveEach(ts, symbol, selected, strict);
      if leaking.Some? {
        return Failure(Leakage(leaking.value));
      }
      r := Success(resolved);
    }

    method FindUnknown(selected: seq<string>) returns (unknown: Option<string>)
      ensures unknown == FirstUnknown(specs, selected)
    {
      assert selected[0..] == selected;
      for i := 0 to |selected|
        invariant FirstUnknown(specs, selected) == FirstUnknown(specs, selected[i..])
      {
        if selected[i] !in specs {
          return Some(selected[i]);
        }
        assert selected[i..][1..] == selected[i + 1..];
      }
      unknown := None;
    }

    /** The resolution loop; in strict mode it stops at the first leak. */
    method ResolveEach(ts: int, symbol: Option<string>, selected: seq<string>, strict: bool)
      returns (resolved: map<string, FeatureValue>, leaking: Option<string>)
      requires specs.Keys == resolvers.Keys && forall n :: n in selected ==> n in specs
      ensures leaking == (if strict then FirstLeak(specs, resolvers, selected, symbol, ts) else None)
      ensures leaking.None? ==> resolved == ResolveAll(specs, resolvers, selected, symbol, ts)
    {
      hide Leaks, ResolveOne;
      resolved := map[];
      assert selected[..0] == [] && selected[0..] == selected;
      for i := 0 to |selected|
        invariant resolved == ResolveAll(specs, resolvers, selected[..i], symbol, ts)
        invariant strict ==>
                    FirstLeak(specs, resolvers, selected, symbol, ts)
                    == FirstLeak(specs, resolvers, selected[i..], symbol, ts)
      {
        var name := selected[i];
        assert selected[i..][1..] == selected[i + 1..];
        assert selected[..i + 1] == selected[..i] + [name];
        if strict && Leaks(specs[name], resolvers[name], symbol, ts) {
          return resolved, Some(name);
        }
        resolved := resolved[name := ResolveOne(specs[name], resolvers[name], name, symbol, ts)];
      }
      assert selected[..|selected|] == selected;
      leaking := None;
    }

    /** One row per instant, each resolved independently; the first failure ends the build. */
    method BuildMatrix(timestamps: seq<int>, symbol: Option<string>, names: Option<seq<string>>, strict: bool)
      returns (r: Result<seq<Row>, StoreError>)
      requires Valid()
      ensures r == MatrixRows(specs, resolvers, if names.Some? then names.value else order, symbol, timestamps, strict)
    {
      hide AsOfNames, RowOf;
      var selected := Selected(names);
      var rows: seq<Row> := [];
      for i := 0 to |timestamps|
        invariant MatrixRows(specs, resolvers, selected, symbol, timestamps[..i], strict) == Success(rows)
      {
        assert timestamps[..i + 1][..i] == timestamps[..i];
        var values := AsOf(timestamps[i], symbol, Some(selected), strict);
        if values.Failure? {
          FailurePersists(specs, resolvers, selected, symbol, timestamps, i + 1, strict);
          return Failure(values.error);
        }
        SuccessCoversNames(specs, resolvers, selected, symbol, timestamps[i], strict);
        rows := rows + [RowOf(values.value, selected)];
      }
      assert timestamps[..|timestamps|] == timestamps;
      r := Success(rows);
    }
  }

  lemma SuccessCoversNames(specs: Specs, resolvers: Resolvers, names: seq<string>, symbol: Option<string>, ts: int,
                           strict: bool)
    requires specs.Keys == resolvers.Keys && AsOfNames(specs, resolvers, names, symbol, ts, strict).Success?
    ensures forall n :: n in names ==> n in AsOfNames(specs, resolvers, names, symbol, ts, strict).value
  {
    KnownNames(specs, names);
  }

  lemma {:induction false} FailurePersists(specs: Specs, resolvers: Resolvers, names: seq<string>,
                                           symbol: Option<string>, timestamps: seq<int>, n: nat, strict: bool)
    requires specs.Keys == resolvers.Keys && n <= |timestamps|
    requires MatrixRows(specs, resolvers, names, symbol, timestamps[..n], strict).Failure?
    ensures MatrixRows(specs, resolvers, names, symbol, timestamps, strict)
         == MatrixRows(specs, resolvers, names, symbol, timestamps[..n], strict)
    decreases |timestamps| - n
  {
    if n == |timestamps| {
      assert timestamps[..n] == timestamps;
    } else {
      assert timestamps[..n + 1][..n] == timestamps[..n];
      FailurePersists(specs, resolvers, names, symbol, timestamps, n + 1, strict);
    }
  }

  // ----- the guarantee -----------------------------------------------------------------------

  /** What may be used at ts, and all of it: the resolver's own answer if it was knowable then. */
  ghost predicate PointInTime(specs: Specs, resolvers: Resolvers, name: string, symbol: Option<string>, ts: int,
                              value: Option<Value>) {
    && name in specs && name in resolvers
    && var o := resolvers[name](symbol, ts);
       value == if o.Some? && specs[name].KnowableAt(o.value.observedAt) <= ts then Some(o.value.value) else None
  }

  /** One feature at one instant: a value exactly if the resolver answered with something knowable by then,
      and the observation's own instants whether it was or not. */
  lemma ResolvedExactly(spec: FeatureSpec, resolver: Resolver, name: string, symbol: Option<string>, ts: int)
    ensures var r, o := ResolveOne(spec, resolver, name, symbol, ts), resolver(symbol, ts);
            && r.name == name && r.askedAt == ts
            && (r.value.Some? <==> o.Some? && o.value.observedAt + spec.Delay() <= ts)
            && (r.value.Some? ==> r.value.value == o.value.value)
            && (if o.None? then r.observedAt == r.knowableAt == None
                else r.observedAt == Some(o.value.observedAt)
                     && r.knowableAt == Some(o.value.observedAt + spec.Delay()))
            && (o.Some? && r.value.None? <==> Leaks(spec, resolver, symbol, ts))
  {
  }

  /** Whatever the resolvers return, `as_of` hands out exactly what was knowable at the instant: nothing
      from the future, and nothing less than was known. */
  lemma NothingFromTheFuture(specs: Specs, resolvers: Resolvers, names: seq<string>, symbol: Option<string>, ts: int,
                             strict: bool)
    requires specs.Keys == resolvers.Keys && AsOfNames(specs, resolvers, names, symbol, ts, strict).Success?
    ensures var values := AsOfNames(specs, resolvers, names, symbol, ts, strict).value;
            && (forall n :: n in values <==> n in names)
            && (forall n :: n in names ==> PointInTime(specs, resolvers, n, symbol, ts, values[n].value))
  {
    KnownNames(specs, names);
  }

  /** A name that was not registered fails the query, strict or not, and the first such name is reported;
      without one, a lenient query never fails, and a strict one reports the first name that leaks. */
  lemma ErrorsNameTheFirst(specs: Specs, resolvers: Resolvers, names: seq<string>, symbol: Option<string>, ts: int,
                           strict: bool, i: nat)
    requires specs.Keys == resolvers.Keys && i < |names|
    ensures names[i] !in specs && (forall j :: 0 <= j < i ==> names[j] in specs) ==>
              AsOfNames(specs, resolvers, names, symbol, ts, strict) == Failure(NotRegistered(names[i]))
    ensures (forall n :: n in names ==> n in specs) ==>
              && AsOfNames(specs, resolvers, names, symbol, ts, false).Success?
              && (Leaks(specs[names[i]], resolvers[names[i]], symbol, ts)
                  && (forall j :: 0 <= j < i ==> !Leaks(specs[names[j]], resolvers[names[j]], symbol, ts)) ==>
                    AsOfNames(specs, resolvers, names, symbol, ts, true) == Failure(Leakage(names[i])))
  {
    hide Leaks, ResolveAll;
    KnownNames(specs, names);
    if names[i] !in specs && forall j :: 0 <= j < i ==> names[j] in specs {
      FirstUnknownIs(specs, names, i);
    }
    if && (forall n :: n in names ==> n in specs) && Leaks(specs[names[i]], resolvers[names[i]], symbol, ts)
       && (forall j :: 0 <= j < i ==> !Leaks(specs[names[j]], resolvers[names[j]], symbol, ts))
    {
      FirstLeakIs(specs, resolvers, names, symbol, ts, i);
    }
  }

  lemma {:induction false} FirstUnknownIs(specs: Specs, names: seq<string>, i: nat)
    requires i < |names| && names[i] !in specs && forall j :: 0 <= j < i ==> names[j] in specs
    ensures FirstUnknown(specs, names) == Some(names[i])
  {
    if 0 < i { FirstUnknownIs(specs, names[1..], i - 1); }
  }

  lemma {:induction false} FirstLeakIs(specs: Specs, resolvers: Resolvers, names: seq<string>, symbol: Option<string>,
                                       ts: int, i: nat)
    requires forall n :: n in names ==> n in specs && n in resolvers
    requires i < |names| && Leaks(specs[names[i]], resolvers[names[i]], symbol, ts)
    requires forall j :: 0 <= j < i ==> !Leaks(specs[names[j]], resolvers[names[j]], symbol, ts)
    ensures FirstLeak(specs, resolvers, names, symbol, ts) == Some(names[i])
  {
    hide Leaks;
    if 0 < i { FirstLeakIs(specs, resolvers, names[1..], symbol, ts, i - 1); }
  }

  /** Strict resolution raises exactly when some selected feature leaks; when none does, strict and
      lenient resolution agree. */
  lemma StrictRaisesIffLeak(specs: Specs, resolvers: Resolvers, names: seq<string>, symbol: Option<string>, ts: int)
    requires specs.Keys == resolvers.Keys && forall n :: n in names ==> n in specs
    ensures AsOfNames(specs, resolvers, names, symbol, ts, true).Failure?
       <==> exists n :: n in names && Leaks(specs[n], resolvers[n], symbol, ts)
    ensures AsOfNames(specs, resolvers, names, symbol, ts, true).Success?
       ==> AsOfNames(specs, resolvers, names, symbol, ts, true) == AsOfNames(specs, resolvers, names, symbol, ts, false)
  {
    hide Leaks, ResolveOne;
    KnownNames(specs, names);
    FirstLeakIsALeak(specs, resolvers, names, symbol, ts);
  }

  ghost predicate PointInTimeRow(specs: Specs, resolvers: Resolvers, names: seq<string>, symbol: Option<string>,
                                 ts: int, row: Row) {
    |row| == |names| && forall j :: 0 <= j < |names| ==> PointInTime(specs, resolvers, names[j], symbol, ts, row[j])
  }

  /** Every cell of a matrix holds exactly what was knowable at the instant of its own row. */
  lemma {:induction false} MatrixIsPointInTime(specs: Specs, resolvers: Resolvers, names: seq<string>,
                                               symbol: Option<string>, timestamps: seq<int>, strict: bool)
    requires specs.Keys == resolvers.Keys && MatrixRows(specs, resolvers, names, symbol, timestamps, strict).Success?
    ensures var rows := MatrixRows(specs, resolvers, names, symbol, timestamps, strict).value;
            && |rows| == |timestamps|
            && forall i :: 0 <= i < |rows| ==> PointInTimeRow(specs, resolvers, names, symbol, timestamps[i], rows[i])
  {
    hide AsOfNames, PointInTime, RowOf, PointInTimeRow;
    if timestamps != [] {
      var front, last := timestamps[..|timestamps| - 1], timestamps[|timestamps| - 1];
      MatrixIsPointInTime(specs, resolvers, names, symbol, front, strict);
      KnownNames(specs, names);
      RowIsPointInTime(specs, resolvers, names, symbol, last, strict);
    }
  }

  /** A matrix is built exactly if the query succeeds at every instant; if not, it fails as the query at the
      first instant that does. */
  lemma {:induction false} MatrixFailsFirst(specs: Specs, resolvers: Resolvers, names: seq<string>,
                                            symbol: Option<string>, timestamps: seq<int>, strict: bool)
    requires specs.Keys == resolvers.Keys
    ensures MatrixRows(specs, resolvers, names, symbol, timestamps, strict).Success?
       <==> forall ts :: ts in timestamps ==> AsOfNames(specs, resolvers, names, symbol, ts, strict).Success?
    ensures forall i :: 0 <= i < |timestamps|
              && AsOfNames(specs, resolvers, names, symbol, timestamps[i], strict).Failure?
              && (forall j :: 0 <= j < i ==> AsOfNames(specs, resolvers, names, symbol, timestamps[j], strict).Success?)
              ==> MatrixRows(specs, resolvers, names, symbol, timestamps, strict)
                  == Failure(AsOfNames(specs, resolvers, names, symbol, timestamps[i], strict).error)
  {
    hide AsOfNames, RowOf;
    if timestamps != [] {
      var n := |timestamps| - 1;
      MatrixFailsFirst(specs, resolvers, names, symbol, timestamps[..n], strict);
      assert timestamps == timestamps[..n] + [timestamps[n]];
    }
  }

  lemma RowIsPointInTime(specs: Specs, resolvers: Resolvers, names: seq<string>, symbol: Option<string>, ts: int,
                         strict: bool)
    requires specs.Keys == resolvers.Keys && AsOfNames(specs, resolvers, names, symbol, ts, strict).Success?
    ensures forall n :: n in names ==> n in AsOfNames(specs, resolvers, names, symbol, ts, strict).value
    ensures PointInTimeRow(specs, resolvers, names, symbol, ts,
        RowOf(AsOfNames(specs, resolvers, names, symbol, ts, strict).value, names))
  {
    hide AsOfNames, PointInTime;
    NothingFromTheFuture(specs, resolvers, names, symbol, ts, strict);
  }
}
