/**
 Forced-liquidation events, their append-only store partitioned by trade date, and the
 de-duplicating reader (research/data/liquidations.py). Rows are represented by the event they
 encode, a date directory by its UTC day number, and a fragment by its file name and rows.
 */
module Liquidations {
  import opened Wrappers
  import opened Sorting
  import opened Series

  datatype Side = Buy | Sell
  datatype Position = Long | Short

  /** A Python float. A NaN equals no number, and two values hold the same NaN only if they hold one
      object: every literal `NaN` of a message or a row decodes to one shared object, while each
      string such as "nan" is converted to an object of its own. */
  datatype Float = Finite(value: real) | PlusInfinity | MinusInfinity | NaN(identity: nat) {
    /** `x > 0` and `x <= 0`: a NaN is neither. */
    predicate Positive() {
      PlusInfinity? || (Finite? && 0.0 < value)
    }

    predicate NotPositive() {
      MinusInfinity? || (Finite? && value <= 0.0)
    }
  }

  /** The product of two floats neither of which is at most zero. */
  function Product(x: Float, y: Float): Float {
    if x.NaN? then x else if y.NaN? then y
    else if x.Finite? && y.Finite? then Finite(x.value * y.value) else PlusInfinity
  }

  datatype Key = Key(symbol: string, tradeTimeMs: int, orderSide: Side, price: Float, quantity: Float)

  datatype Event = Event(
    symbol: string,
    tradeTimeMs: int,
    eventTimeMs: int,
    orderSide: Side,
    liquidatedSide: Position,
    price: Float,
    quantity: Float,
    notional: Float)
  {
    function DedupKey(): Key {
      Key(symbol, tradeTimeMs, orderSide, price, quantity)
    }
  }

  // ----- decoded JSON ---------------------------------------------------------------------

  /** A decoded JSON value. `text` is what `str` makes of it; a string also carries what `int` and
      `float` make of it, None where they raise a ValueError. */
  datatype Json =
    | Null
    | Bool(flag: bool)
    | Integer(number: int, text: string)
    | Decimal(float: Float, text: string)
    | Text(text: string, asInt: Option<int>, asFloat: Option<Float>)
    | Array(items: seq<Json>, text: string)
    | Object(fields: map<string, Json>, text: string)

  function Str(j: Json): string {
    match j
    case Null => "None"
    case Bool(flag) => if flag then "True" else "False"
    case _ => j.text
  }

  predicate IsText(j: Json, s: string) {
    j.Text? && j.text == s
  }

  /** Python's falsy values. */
  predicate Falsy(j: Json) {
    match j
    case Null => true
    case Bool(flag) => !flag
    case Integer(number, _) => number == 0
    case Decimal(float, _) => float == Finite(0.0)
    case Text(text, _, _) => text == ""
    case Array(items, _) => items == []
    case Object(fields, _) => fields == map[]
  }

  function Pow2(n: nat): nat {
    if n == 0 then 1 else 2 * Pow2(n - 1)
  }

  /** `float` of an integer raises an OverflowError where rounding would reach 2 to the 1024. */
  predicate TooLargeForFloat(i: int) {
    i >= (Pow2(54) - 1) * Pow2(970) || -i >= (Pow2(54) - 1) * Pow2(970)
  }

  function Truncated(x: real): int {
    if x < 0.0 then -(-x).Floor else x.Floor
  }

  datatype Parsed = Liquidation(event: Event) | Rejected | Raised

  /** A conversion that succeeds, that raises an error the parser catches (KeyError, TypeError or
      ValueError), or that raises an OverflowError, which it does not. */
  datatype Conversion<+T> = Converted(value: T) | Refused | Overflow {
    predicate IsFailure() {
      !Converted?
    }

    function PropagateFailure(): Parsed
      requires IsFailure()
    {
      if Refused? then Rejected else Raised
    }

    function Extract(): T
      requires !IsFailure()
    {
      value
    }
  }

  function IntOf(j: Json): Conversion<int> {
    match j
    case Bool(flag) => Converted(if flag then 1 else 0)
    case Integer(number, _) => Converted(number)
    case Decimal(Finite(value), _) => Converted(Truncated(value))
    case Decimal(NaN(_), _) => Refused
    case Decimal(_, _) => Overflow
    case Text(_, Some(number), _) => Converted(number)
    case _ => Refused
  }

  function FloatOf(j: Json): Conversion<Float> {
    match j
    case Bool(flag) => Converted(Finite(if flag then 1.0 else 0.0))
    case Integer(number, _) => if TooLargeForFloat(number) then Overflow else Converted(Finite(number as real))
    case Decimal(float, _) => Converted(float)
    case Text(_, _, Some(float)) => Converted(float)
    case _ => Refused
  }

  function IntAt(fields: map<string, Json>, name: string): Conversion<int> {
    if name in fields then IntOf(fields[name]) else Refused
  }

  function FloatAt(fields: map<string, Json>, name: string): Conversion<Float> {
    if name in fields then FloatOf(fields[name]) else Refused
  }

  // ----- parsing one frame ---------------------------------------------------------------

  /** `Undecodable`: the decoder gives up with an error other than JSONDecodeError or TypeError,
      on nesting too deep, an integer literal too long, or bytes that are not text. */
  datatype Frame = NotJson | Undecodable | Decoded(payload: Json)

  /** `"data" in s` for a string. */
  predicate Contains(s: string, word: string) {
    exists i | 0 <= i <= |s| - |word| :: StartsAt(s, word, i)
  }

  predicate StartsAt(s: string, word: string, i: int)
    requires 0 <= i <= |s| - |word|
  {
    s[i..i + |word|] == word
  }

  function ParseForceOrder(payload: Json): Parsed {
    match payload
    case Object(fields, _) =>
      var body := if "data" in fields && "stream" in fields then fields["data"] else payload;
      if body.Object? then ParseBody(body.fields) else Raised
    case Array(items, _) =>
      if (exists j :: j in items && IsText(j, "data")) && (exists j :: j in items && IsText(j, "stream"))
      then Rejected else Raised
    case Text(text, _, _) => if Contains(text, "data") && Contains(text, "stream") then Rejected else Raised
    case _ => Rejected
  }

  function ParseBody(body: map<string, Json>): Parsed {
    if !IsForceOrder(body) || "s" !in body["o"].fields || "S" !in body["o"].fields then Rejected
    else ParseOrder(body, body["o"].fields)
  }

  predicate IsForceOrder(body: map<string, Json>) {
    "e" in body && IsText(body["e"], "forceOrder") && "o" in body && body["o"].Object?
  }

  /** The average fill price; absent or falsy, as before a fill, it counts as zero. */
  function AveragePrice(order: map<string, Json>): Conversion<Float> {
    if "ap" !in order || Falsy(order["ap"]) then Converted(Finite(0.0)) else FloatOf(order["ap"])
  }

  function ParseOrder(body: map<string, Json>, order: map<string, Json>): Parsed
    requires "s" in order && "S" in order
  {
    var tradeTimeMs :- IntAt(order, "T");
    var eventTimeMs :- IntAt(body, "E");
    var quantity :- FloatAt(order, "q");
    var average :- AveragePrice(order);
    var price :- if average.Positive() then Converted(average) else FloatAt(order, "p");
    if price.NotPositive() || quantity.NotPositive() then Rejected else
    match SideOf(Str(order["S"]))
    case None => Rejected
    case Some(side) =>
      Liquidation(Event(Str(order["s"]), tradeTimeMs, eventTimeMs, side, LiquidatedSide(side), price, quantity,
        Product(price, quantity)))
  }

  /** Upper case, on the letters that can make up an order side. */
  function Upper(c: char): char {
    if 'a' <= c <= 'z' then c - 'a' + 'A' else if c == '\U{17F}' then 'S' else c
  }

  function UpperText(s: string): string {
    seq(|s|, i requires 0 <= i < |s| => Upper(s[i]))
  }

  function SideOf(text: string): Option<Side> {
    if UpperText(text) == "SELL" then Some(Sell) else if UpperText(text) == "BUY" then Some(Buy) else None
  }

  /** The order that closes a long is a sale. */
  function LiquidatedSide(orderSide: Side): Position {
    if orderSide == Sell then Long else Short
  }

  function EventOf(f: Frame): Option<Event> {
    if f.Decoded? && ParseForceOrder(f.payload).Liquidation? then Some(ParseForceOrder(f.payload).event) else None
  }

  /** An error leaves `on_message`. */
  predicate Raises(f: Frame) {
    f.Undecodable? || (f.Decoded? && ParseForceOrder(f.payload).Raised?)
  }

  /** What the parser looks at: the envelope's content if there is one. */
  function Unwrapped(payload: Json): Json {
    if payload.Object? && "data" in payload.fields && "stream" in payload.fields then payload.fields["data"]
    else payload
  }

  /** The numeric fields in the order they are converted; the order price only if it is needed. */
  function Conversions(body: map<string, Json>): seq<Conversion<()>>
    requires IsForceOrder(body)
  {
    var order := body["o"].fields;
    var average := AveragePrice(order);
    [Outcome(IntAt(order, "T")), Outcome(IntAt(body, "E")), Outcome(FloatAt(order, "q")), Outcome(average)]
    + if average.Converted? && average.value.Positive() then [] else [Outcome(FloatAt(order, "p"))]
  }

  function Outcome<T>(c: Conversion<T>): Conversion<()> {
    match c case Converted(_) => Converted(()) case Refused => Refused case Overflow => Overflow
  }

  /** Exactly which frames raise out of the session: those the decoder gives up on; a list or a string
      that does not hold both envelope words; an envelope around anything but an object; and a
      liquidation message whose first unusable number is one that overflows. */
  lemma RaisesExactly(f: Frame)
    ensures Raises(f) <==>
              || f.Undecodable?
              || (f.Decoded? && f.payload.Array? && !(forall word :: word in ["data", "stream"] ==>
                    exists j :: j in f.payload.items && IsText(j, word)))
              || (f.Decoded? && f.payload.Text?
                  && !(forall word :: word in ["data", "stream"] ==> Contains(f.payload.text, word)))
              || (f.Decoded? && f.payload.Object? && !Unwrapped(f.payload).Object?)
              || (f.Decoded? && f.payload.Object? && Unwrapped(f.payload).Object?
                  && OverflowsFirst(Unwrapped(f.payload).fields))
  {
    var words := ["data", "stream"];
    assert words[0] in words && words[1] in words;
    hide Contains, IsText;
    if f.Decoded? && f.payload.Object? && Unwrapped(f.payload).Object? {
      OverflowRaises(Unwrapped(f.payload).fields);
    }
  }

  /** A liquidation message whose first number that does not convert is one that overflows. */
  predicate OverflowsFirst(body: map<string, Json>) {
    && IsForceOrder(body) && "s" in body["o"].fields && "S" in body["o"].fields
    && var numbers := Conversions(body);
       exists i :: 0 <= i < |numbers| && numbers[i].Overflow? && forall j :: 0 <= j < i ==> numbers[j].Converted?
  }

  lemma OverflowRaises(body: map<string, Json>)
    ensures ParseBody(body).Raised? <==> OverflowsFirst(body)
  {
    hide IsText, IntAt, FloatAt, AveragePrice, SideOf, Str;
    if IsForceOrder(body) && "s" in body["o"].fields && "S" in body["o"].fields {
      var numbers := Conversions(body);
      if i :| 0 <= i < |numbers| && !numbers[i].Converted? && forall j :: 0 <= j < i ==> numbers[j].Converted? {
        FirstFailureDecides(body, i);
      } else {
        assert numbers[0].Converted? && numbers[1].Converted? && numbers[2].Converted? && numbers[3].Converted?;
        if |numbers| == 5 { assert numbers[4].Converted?; }
      }
    }
  }

  lemma FirstFailureDecides(body: map<string, Json>, i: nat)
    requires IsForceOrder(body) && "s" in body["o"].fields && "S" in body["o"].fields
    requires i < |Conversions(body)| && !Conversions(body)[i].Converted?
    requires forall j :: 0 <= j < i ==> Conversions(body)[j].Converted?
    ensures ParseBody(body).Raised? <==> Conversions(body)[i].Overflow?
    ensures OverflowsFirst(body) <==> Conversions(body)[i].Overflow?
  {
    hide IsText, IntAt, FloatAt, AveragePrice, SideOf, Str;
    var numbers := Conversions(body);
    assert 0 < i ==> numbers[0].Converted?;
    assert 1 < i ==> numbers[1].Converted?;
    assert 2 < i ==> numbers[2].Converted?;
    assert 3 < i ==> numbers[3].Converted?;
  }

  /** Exactly which frames carry an event: a liquidation message with symbol and side whose numbers all
      convert, a price and a quantity that are not at most zero, and a side that is a sale or a purchase in
      any case. */
  lemma AcceptsExactly(f: Frame)
    ensures EventOf(f).Some?
       <==> && f.Decoded? && f.payload.Object? && Unwrapped(f.payload).Object?
            && var body := Unwrapped(f.payload).fields;
               && IsForceOrder(body) && "s" in body["o"].fields && "S" in body["o"].fields
               && (forall n :: n in Conversions(body) ==> n.Converted?)
               && var order := body["o"].fields; var average := AveragePrice(order).value;
                  && !FloatAt(order, "q").value.NotPositive()
                  && (average.Positive() || !FloatAt(order, "p").value.NotPositive())
                  && UpperText(Str(order["S"])) in ["SELL", "BUY"]
  {
    hide IsText, IntAt, FloatAt, AveragePrice, Str, UpperText, Contains;
    if f.Decoded? && f.payload.Object? && Unwrapped(f.payload).Object? {
      var body := Unwrapped(f.payload).fields;
      if IsForceOrder(body) && "s" in body["o"].fields && "S" in body["o"].fields { AllConvert(body); }
    }
  }

  lemma AllConvert(body: map<string, Json>)
    requires IsForceOrder(body)
    ensures var order, average := body["o"].fields, AveragePrice(body["o"].fields);
            ((forall n :: n in Conversions(body) ==> n.Converted?)
             <==> && IntAt(order, "T").Converted? && IntAt(body, "E").Converted? && FloatAt(order, "q").Converted?
                  && average.Converted? && (average.value.Positive() || FloatAt(order, "p").Converted?))
  {
    hide IsText, IntAt, FloatAt, AveragePrice;
    var numbers := Conversions(body);
    assert numbers[0] in numbers && numbers[1] in numbers && numbers[2] in numbers && numbers[3] in numbers;
    if |numbers| == 5 { assert numbers[4] in numbers; }
  }

  /** A message of another kind is no event and raises nothing. */
  lemma OtherMessagesAreRejected(body: map<string, Json>)
    requires "e" in body ==> !body["e"].Text? || body["e"].text != "forceOrder"
    ensures ParseBody(body) == Rejected
  {
  }

  /** The side in any case; the long s is one in upper case too. */
  lemma SideExactly(text: string)
    ensures SideOf(text) == Some(Sell)
       <==> |text| == 4 && text[0] in "sS\U{17F}" && text[1] in "eE" && text[2] in "lL" && text[3] in "lL"
    ensures SideOf(text) == Some(Buy) <==> |text| == 3 && text[0] in "bB" && text[1] in "uU" && text[2] in "yY"
  {
    var u := UpperText(text);
    assert |text| == 4 ==> u == [Upper(text[0]), Upper(text[1]), Upper(text[2]), Upper(text[3])];
    assert |text| == 3 ==> u == [Upper(text[0]), Upper(text[1]), Upper(text[2])];
    assert "SELL" == ['S', 'E', 'L', 'L'] && "BUY" == ['B', 'U', 'Y'];
  }

  /** The envelope words are looked for anywhere in a string. */
  lemma ContainsIff(s: string, word: string)
    ensures Contains(s, word) <==> exists before: string, rest: string :: s == before + word + rest
  {
    if before: string, rest: string :| s == before + word + rest {
      assert StartsAt(s, word, |before|);
    }
    if i :| 0 <= i <= |s| - |word| && StartsAt(s, word, i) {
      assert s == s[..i] + word + s[i + |word|..];
    }
  }

  /** Truncation goes toward zero. */
  lemma TruncatedTowardZero(x: real)
    ensures 0.0 <= x ==> 0 <= Truncated(x) && Truncated(x) as real <= x < Truncated(x) as real + 1.0
    ensures x <= 0.0 ==> Truncated(x) <= 0 && Truncated(x) as real - 1.0 < x <= Truncated(x) as real
  {
  }

  /** The integers too large for a float: those that round past the largest one, 2^1024 - 2^971. */
  lemma TooLargeIff(i: int)
    ensures TooLargeForFloat(i) <==> Pow2(1024) - Pow2(970) <= if i < 0 then -i else i
  {
    hide Pow2;
    PowersMultiply(54, 970);
    LessOneTimes(Pow2(54), Pow2(970), Pow2(1024));
    PowerPositive(54);
    PowerPositive(970);
    PositiveTimes(Pow2(54) - 1, Pow2(970));
  }

  lemma LessOneTimes(a: int, b: int, product: int)
    requires product == a * b
    ensures (a - 1) * b == product - b
  {
  }

  lemma {:induction false} PowersMultiply(m: nat, n: nat)
    ensures Pow2(m + n) == Pow2(m) * Pow2(n)
  {
    if 0 < m {
      PowersMultiply(m - 1, n);
      assert Pow2(m + n) == 2 * Pow2(m - 1 + n);
    }
  }

  /** The average fill price by what it is written as: missing, null and empty count as zero, as do false and
      zero; any number is itself; other values are refused. */
  lemma AveragePriceExactly(order: map<string, Json>)
    ensures AveragePrice(order) ==
              if "ap" !in order then Converted(Finite(0.0)) else
              match order["ap"]
              case Null => Converted(Finite(0.0))
              case Bool(flag) => Converted(Finite(if flag then 1.0 else 0.0))
              case Integer(n, _) => if TooLargeForFloat(n) then Overflow else Converted(Finite(n as real))
              case Decimal(x, _) => Converted(x)
              case Text(text, _, x) =>
                if text == "" then Converted(Finite(0.0)) else if x.Some? then Converted(x.value) else Refused
              case Array(items, _) => if items == [] then Converted(Finite(0.0)) else Refused
              case Object(fields, _) => if fields == map[] then Converted(Finite(0.0)) else Refused
  {
    hide Pow2;
    ZeroFits();
    hide TooLargeForFloat;
  }

  lemma ZeroFits()
    ensures !TooLargeForFloat(0)
  {
    hide Pow2;
    PowerPositive(54);
    PowerPositive(970);
    PositiveTimes(Pow2(54) - 1, Pow2(970));
  }

  lemma PositiveTimes(a: int, b: int)
    requires 0 < a && 0 < b
    ensures 0 < a * b
  {
  }

  lemma {:induction false} PowerPositive(n: nat)
    ensures n as int < Pow2(n)
  {
    if 0 < n { PowerPositive(n - 1); }
  }

  /** An accepted frame has a price and quantity that are not at most zero, and the position side
      opposite to its order; its price is the average fill price when that is positive. */
  lemma ParsedEventIsSound(f: Frame)
    requires EventOf(f).Some?
    ensures var e := EventOf(f).value;
            && !e.price.NotPositive() && !e.quantity.NotPositive() && e.notional == Product(e.price, e.quantity)
            && (e.liquidatedSide == Long <==> e.orderSide == Sell)
    ensures var body := Unwrapped(f.payload).fields; var average := AveragePrice(body["o"].fields);
            average.Converted? && (average.value.Positive() ==> EventOf(f).value.price == average.value)
  {
    hide SideOf, Str, IsText;
  }

  /** The order part of the exchange's message for an event; before the first fill its average price is
      zero. The exchange sends prices and quantities as strings. */
  function OrderFor(e: Event, filled: bool, orderPrice: Float): map<string, Json> {
    map["s" := Text(e.symbol, None, None), "S" := Text(if e.orderSide == Sell then "SELL" else "BUY", None, None),
        "T" := Integer(e.tradeTimeMs, ""), "q" := Text("1", None, Some(e.quantity)),
        "ap" := Text("0", Some(0), Some(if filled then e.price else Finite(0.0))),
        "p" := Text("1", None, Some(orderPrice))]
  }

  function BodyFor(e: Event, order: map<string, Json>): map<string, Json> {
    map["e" := Text("forceOrder", None, None), "E" := Integer(e.eventTimeMs, ""), "o" := Object(order, "")]
  }

  /** The whole message, with or without the combined-stream envelope. */
  function MessageFor(e: Event, filled: bool, orderPrice: Float, wrapped: bool): Frame {
    var message := Object(BodyFor(e, OrderFor(e, filled, orderPrice)), "");
    Decoded(if wrapped then Object(map["stream" := Text("!forceOrder@arr", None, None), "data" := message], "")
            else message)
  }

  /** Keys of one letter differ if their letters do. */
  lemma OrderFields(e: Event, filled: bool, orderPrice: Float)
    ensures var order := OrderFor(e, filled, orderPrice);
            && "s" in order && "S" in order && Str(order["s"]) == e.symbol
                 && SideOf(Str(order["S"])) == Some(e.orderSide)
            && IntAt(order, "T") == Converted(e.tradeTimeMs) && FloatAt(order, "q") == Converted(e.quantity)
            && AveragePrice(order) == Converted(if filled then e.price else Finite(0.0))
            && FloatAt(order, "p") == Converted(orderPrice)
  {
    assert "s"[0] == 's' && "S"[0] == 'S' && "T"[0] == 'T' && "q"[0] == 'q' && "p"[0] == 'p';
    assert |"ap"| == 2;
    assert UpperText("SELL") == "SELL" && UpperText("BUY") == "BUY";
  }

  lemma BodyFields(e: Event, order: map<string, Json>)
    ensures var body := BodyFor(e, order);
            IsForceOrder(body) && body["o"].fields == order && IntAt(body, "E") == Converted(e.eventTimeMs)
            && "data" !in body
  {
    assert "e"[0] == 'e' && "E"[0] == 'E' && "o"[0] == 'o' && |"data"| == 4;
  }

  lemma EnvelopeOpens(message: Json)
    requires message.Object? && "data" !in message.fields
    ensures Unwrapped(message) == message
    ensures Unwrapped(Object(map["stream" := Text("!forceOrder@arr", None, None), "data" := message], "")) == message
    ensures ParseForceOrder(message) == ParseBody(message.fields)
    ensures ParseForceOrder(Object(map["stream" := Text("!forceOrder@arr", None, None), "data" := message], ""))
         == ParseBody(message.fields)
  {
    hide ParseBody;
    assert |"stream"| == 6 && |"data"| == 4;
  }

  /** The message of an event parses back to it, from the average price or, before a fill, from the
      order price, exactly if the event is one: price and quantity not at most zero, consistent
      notional and side. A NaN or an infinite price is one. */
  lemma ParseInvertsMessage(e: Event, filled: bool, orderPrice: Float, wrapped: bool)
    requires !filled ==> orderPrice == e.price
    requires filled ==> e.price.Positive()
    ensures EventOf(MessageFor(e, filled, orderPrice, wrapped)) == Some(e)
       <==> && !e.price.NotPositive() && !e.quantity.NotPositive() && e.notional == Product(e.price, e.quantity)
            && (e.liquidatedSide == Long <==> e.orderSide == Sell)
  {
    var order := OrderFor(e, filled, orderPrice);
    OrderFields(e, filled, orderPrice);
    BodyFields(e, order);
    EnvelopeOpens(Object(BodyFor(e, order), ""));
    hide OrderFor, BodyFor, SideOf, Str, IntAt, FloatAt, AveragePrice, IsForceOrder, ParseForceOrder;
  }

  /** An infinite trade time is an error that the parser does not catch. */
  lemma InfiniteTradeTimeRaises(e: Event, filled: bool, orderPrice: Float)
    ensures var order := OrderFor(e, filled, orderPrice)["T" := Decimal(PlusInfinity, "inf")];
            Raises(Decoded(Object(BodyFor(e, order), "")))
  {
    var order := OrderFor(e, filled, orderPrice)["T" := Decimal(PlusInfinity, "inf")];
    OrderFields(e, filled, orderPrice);
    BodyFields(e, order);
    EnvelopeOpens(Object(BodyFor(e, order), ""));
    assert "s"[0] == 's' && "S"[0] == 'S' && "T"[0] == 'T';
  }

  // ----- the store ----------------------------------------------------------------------------

  function DayOf(tradeTimeMs: int): int {
    tradeTimeMs / DAY_MS
  }

  /** The instants a Python datetime can hold, from the year 1 to the year 9999, and their days. */
  const FIRST_DAY := -719_162
  const LAST_DAY := 2_932_896

  predicate InCalendar(e: Event) {
    FIRST_DAY * DAY_MS <= e.tradeTimeMs < (LAST_DAY + 1) * DAY_MS
  }

  predicate AllInCalendar(events: seq<Event>) {
    forall e :: e in events ==> InCalendar(e)
  }

  /** One immutable file of a date directory. */
  datatype Fragment = Fragment(name: string, rows: seq<Event>)

  /** The fragments of each date directory, in the order they were written. */
  type Directories = map<int, seq<Fragment>>

  function Flatten(fragments: seq<Fragment>): seq<Event> {
    if fragments == [] then [] else Flatten(fragments[..|fragments| - 1]) + fragments[|fragments| - 1].rows
  }

  /** The rows of a day in the order they were written. */
  function Rows(dirs: Directories, day: int): seq<Event> {
    if day in dirs then Flatten(dirs[day]) else []
  }

  /** The events of a list that were traded on a given day, in order. */
  function OnDay(events: seq<Event>, day: int): seq<Event> {
    if events == [] then []
    else OnDay(events[..|events| - 1], day)
         + (if DayOf(events[|events| - 1].tradeTimeMs) == day then [events[|events| - 1]] else [])
  }

  /** Every row lies in the directory of its own trade date, which the calendar has. */
  ghost predicate Partitioned(dirs: Directories) {
    forall day: int :: forall e :: e in Rows(dirs, day) ==> DayOf(e.tradeTimeMs) == day && InCalendar(e)
  }

  lemma {:induction false} OnDayElements(events: seq<Event>, day: int)
    ensures forall e :: e in OnDay(events, day) <==> e in events && DayOf(e.tradeTimeMs) == day
  {
    if events != [] {
      OnDayElements(events[..|events| - 1], day);
      assert events == events[..|events| - 1] + [events[|events| - 1]];
    }
  }

  lemma {:induction false} OnDayConcat(a: seq<Event>, b: seq<Event>, day: int)
    ensures OnDay(a + b, day) == OnDay(a, day) + OnDay(b, day)
  {
    if b == [] {
      assert a + b == a;
    } else {
      var front := b[..|b| - 1];
      OnDayConcat(a, front, day);
      assert (a + b)[..|a + b| - 1] == a + front;
      assert (a + b)[|a + b| - 1] == b[|b| - 1];
    }
  }

  lemma {:induction false} FlattenAppend(fragments: seq<Fragment>, last: Fragment)
    ensures Flatten(fragments + [last]) == Flatten(fragments) + last.rows
  {
    assert (fragments + [last])[..|fragments|] == fragments;
  }

  /** The directories after one more immutable fragment. */
  function WithFragment(dirs: Directories, day: int, fragment: Fragment): Directories {
    dirs[day := (if day in dirs then dirs[day] else []) + [fragment]]
  }

  lemma FragmentAddsRows(dirs: Directories, day: int, fragment: Fragment)
    ensures Rows(WithFragment(dirs, day, fragment), day) == Rows(dirs, day) + fragment.rows
    ensures forall d: int :: d != day ==> Rows(WithFragment(dirs, day, fragment), d) == Rows(dirs, d)
    ensures OnlyAppended(dirs, WithFragment(dirs, day, fragment))
  {
    FlattenAppend(if day in dirs then dirs[day] else [], fragment);
  }

  /** No fragment was removed, changed or reordered. */
  ghost predicate OnlyAppended(before: Directories, after: Directories) {
    forall day :: day in before ==> day in after && before[day] <= after[day]
  }

  /** The directories after one fragment for each of the days, in turn. */
  function Written(dirs: Directories, days: seq<int>, events: seq<Event>, fileName: int -> string): Directories {
    if days == [] then dirs
    else
      var last := days[|days| - 1];
      WithFragment(Written(dirs, days[..|days| - 1], events, fileName), last,
        Fragment(fileName(last), OnDay(events, last)))
  }

  function Days(events: seq<Event>): set<int> {
    set e | e in events :: DayOf(e.tradeTimeMs)
  }

  /** What `write_batch` leaves: nothing of a batch with a trade time outside the calendar, as every
      date is computed before the first fragment is written. */
  function AfterBatch(dirs: Directories, events: seq<Event>, fileName: int -> string): Directories {
    if AllInCalendar(events) then Written(dirs, SortedSet(Days(events)), events, fileName) else dirs
  }

  lemma {:induction false} WrittenStep(dirs: Directories, days: seq<int>, events: seq<Event>, fileName: int -> string,
                                       day: int)
    ensures Written(dirs, days + [day], events, fileName)
         == WithFragment(Written(dirs, days, events, fileName), day, Fragment(fileName(day), OnDay(events, day)))
  {
    assert (days + [day])[..|days|] == days;
  }

  lemma {:induction false} NothingWritten(dirs: Directories, events: seq<Event>, fileName: int -> string)
    ensures OnlyAppended(dirs, dirs)
    ensures Written(dirs, [], events, fileName) == dirs
    ensures events == [] ==> AfterBatch(dirs, events, fileName) == dirs
  {
    if events == [] {
      assert Days(events) == {};
    }
  }

  lemma NothingOnAnyDay()
    ensures forall day: int :: OnDay([], day) == []
  {
  }

  lemma {:induction false} WrittenAdds(dirs: Directories, days: seq<int>, events: seq<Event>, fileName: int -> string,
                                       day: int)
    requires Ascending(days)
    ensures Rows(Written(dirs, days, events, fileName), day)
        == Rows(dirs, day) + (if day in days then OnDay(events, day) else [])
    ensures OnlyAppended(dirs, Written(dirs, days, events, fileName))
  {
    hide Rows, WithFragment, OnDay;
    if days != [] {
      var front, last := days[..|days| - 1], days[|days| - 1];
      assert days == front + [last];
      assert last !in front;
      WrittenAdds(dirs, front, events, fileName, day);
      FragmentAddsRows(Written(dirs, front, events, fileName), last, Fragment(fileName(last), OnDay(events, last)));
    }
  }

  /** Every day gains exactly its own events, in order, and nothing already written changes. */
  lemma {:induction false} BatchAddsRows(dirs: Directories, events: seq<Event>, fileName: int -> string)
    requires AllInCalendar(events)
    ensures forall day: int :: Rows(AfterBatch(dirs, events, fileName), day) == Rows(dirs, day) + OnDay(events, day)
    ensures OnlyAppended(dirs, AfterBatch(dirs, events, fileName))
  {
    hide Rows, Written, OnDay, OnlyAppended;
    var days := SortedSet(Days(events));
    SortedSetAscending(Days(events));
    forall day: int ensures Rows(AfterBatch(dirs, events, fileName), day) == Rows(dirs, day) + OnDay(events, day) {
      WrittenAdds(dirs, days, events, fileName, day);
      DayWithoutEvents(events, day);
    }
    WrittenAdds(dirs, days, events, fileName, 0);
  }

  lemma {:induction false} DayWithoutEvents(events: seq<Event>, day: int)
    ensures day !in Days(events) ==> OnDay(events, day) == []
  {
    OnDayElements(events, day);
    if OnDay(events, day) != [] {
      assert OnDay(events, day)[0] in OnDay(events, day);
    }
  }

  // ----- the reader ---------------------------------------------------------------------------

  /** `OutsideCalendar`: the padded range of dates leaves the calendar, an OverflowError. */
  datatype ReadError = WindowReversed | OutsideCalendar

  /** A Python dict: its keys in insertion order and their current values. */
  datatype Dict = Dict(order: seq<Key>, values: map<Key, Event>) {
    ghost predicate Consistent() {
      && (forall k :: k in order <==> k in values)
      && (forall i, j :: 0 <= i < j < |order| ==> order[i] != order[j])
      && (forall k :: k in values ==> values[k].DedupKey() == k)
    }
  }

  const EMPTY_DICT := Dict([], map[])

  function InsertRow(d: Dict, e: Event, t0: int, t1: int): (d': Dict)
    requires d.Consistent()
    ensures d'.Consistent()
  {
    if !(t0 <= e.tradeTimeMs <= t1) then d
    else Dict(if e.DedupKey() in d.values then d.order else d.order + [e.DedupKey()], d.values[e.DedupKey() := e])
  }

  function Scan(rows: seq<Event>, t0: int, t1: int): (d: Dict)
    ensures d.Consistent()
  {
    if rows == [] then EMPTY_DICT else InsertRow(Scan(rows[..|rows| - 1], t0, t1), rows[|rows| - 1], t0, t1)
  }

  /** Fragments are read in the order of their file names. */
  predicate NameLe(a: Fragment, b: Fragment) {
    StringLe(a.name, b.name)
  }

  function RowsRead(dirs: Directories, day: int): seq<Event> {
    if day in dirs then Flatten(Sort(dirs[day], NameLe)) else []
  }

  function RowsOfDays(dirs: Directories, first: int, end: int): seq<Event>
    requires first <= end
    decreases end - first
  {
    if first == end then [] else RowsOfDays(dirs, first, end - 1) + RowsRead(dirs, end - 1)
  }

  function Values(d: Dict): seq<Event>
    requires d.Consistent()
  {
    seq(|d.order|, i requires 0 <= i < |d.order| => assert d.order[i] in d.order; d.values[d.order[i]])
  }

  /** Ascending by (trade time, symbol). */
  predicate EventLe(a: Event, b: Event) {
    a.tradeTimeMs < b.tradeTimeMs || (a.tradeTimeMs == b.tradeTimeMs && StringLe(a.symbol, b.symbol))
  }

  lemma DayOfMonotone(t0: int, t1: int)
    requires t0 <= t1
    ensures DayOf(t0) <= DayOf(t1)
  {
  }

  /** What `read_window` returns for a window that is not reversed. */
  function WindowEvents(dirs: Directories, t0: int, t1: int): seq<Event>
    requires t0 <= t1
  {
    DayOfMonotone(t0, t1);
    Sort(Values(Scan(RowsOfDays(dirs, DayOf(t0) - 1, DayOf(t1) + 2), t0, t1)), EventLe)
  }

  function ReadResult(dirs: Directories, t0: int, t1: int): Result<seq<Event>, ReadError> {
    if t0 > t1 then Failure(WindowReversed)
    else if DayOf(t0) - 1 < FIRST_DAY || LAST_DAY <= DayOf(t1) + 1 then Failure(OutsideCalendar)
    else Success(WindowEvents(dirs, t0, t1))
  }

  class LiquidationStore {
    var dirs: Directories
    var writes: nat
    /** The name of the n-th write's fragment for a day: flush time and random suffix. */
    const fileName: (nat, int) -> string

    constructor (fileName: (nat, int) -> string)
      ensures dirs == map[] && writes == 0 && this.fileName == fileName
    {
      dirs, writes := map[], 0;
      this.fileName := fileName;
    }

    /** One immutable fragment per trade date; it raises, before writing anything, on a trade time
        outside the calendar. */
    method WriteBatch(events: seq<Event>) returns (raises: bool)
      modifies this
      ensures raises <==> !AllInCalendar(events)
      ensures dirs == AfterBatch(old(dirs), events, day => fileName(old(writes), day))
      ensures raises ==> dirs == old(dirs)
      ensures !raises ==> forall day: int :: Rows(dirs, day) == Rows(old(dirs), day) + OnDay(events, day)
      ensures OnlyAppended(old(dirs), dirs)
      ensures events == [] ==> dirs == old(dirs)
      ensures writes == old(writes) + (if events == [] then 0 else 1)
    {
      hide Rows, OnDay, Written, Days, OnlyAppended, WithFragment, AfterBatch, InCalendar;
      var n := writes;
      var name := (day: int) => fileName(n, day);
      NothingWritten(dirs, events, name);
      if events == [] {
        NothingOnAnyDay();
        return false;
      }
      var byTradeDate, bad := GroupByTradeDate(events);
      writes := writes + 1;
      if bad {
        NothingStored(dirs, events, name);
        return true;
      }
      var days := SortedSet(byTradeDate.Keys);
      for i := 0 to |days|
        invariant dirs == Written(old(dirs), days[..i], events, name)
        invariant writes == old(writes) + 1
      {
        assert days[i] in days;
        SortedSetAscending(byTradeDate.Keys);
        assert days[..i + 1] == days[..i] + [days[i]];
        WrittenStep(old(dirs), days[..i], events, name, days[i]);
        dirs := WithFragment(dirs, days[i], Fragment(name(days[i]), byTradeDate[days[i]]));
      }
      assert days[..|days|] == days;
      AfterBatchIs(old(dirs), events, name);
      BatchAddsRows(old(dirs), events, name);
      return false;
    }

    /** Scan the padded range of date directories, keep the rows in the window, and let a later
        row with the same key replace an earlier one. */
    method ReadWindow(t0: int, t1: int) returns (r: Result<seq<Event>, ReadError>)
      ensures r == ReadResult(dirs, t0, t1)
    {
      hide RowsOfDays, DayOf, Values, Sort, Scan;
      if t0 > t1 {
        return Failure(WindowReversed);
      }
      var first, last := DayOf(t0) - 1, DayOf(t1) + 1;
      if first < FIRST_DAY || LAST_DAY <= last {
        return Failure(OutsideCalendar);
      }
      DayOfMonotone(t0, t1);
      var seen := ReadDays(first, last, t0, t1);
      r := Success(Sort(Values(seen), EventLe));
    }

    method ReadDays(first: int, last: int, t0: int, t1: int) returns (seen: Dict)
      requires first <= last
      ensures seen == Scan(RowsOfDays(dirs, first, last + 1), t0, t1)
    {
      hide RowsRead, InsertRow, Sort, NameLe, RowsOfDays;
      seen := EMPTY_DICT;
      NoDaysYet(dirs, first);
      for day := first to last + 1
        invariant seen == Scan(RowsOfDays(dirs, first, day), t0, t1)
      {
        ghost var base := RowsOfDays(dirs, first, day);
        NextDay(dirs, first, day);
        if day in dirs {
          seen := ReadDirectory(Sort(dirs[day], NameLe), seen, base, t0, t1);
        } else {
          assert base + [] == base;
        }
      }
    }
  }

  lemma {:induction false} NoDaysYet(dirs: Directories, first: int)
    ensures RowsOfDays(dirs, first, first) == []
  {
  }

  lemma NextDay(dirs: Directories, first: int, day: int)
    requires first <= day
    ensures RowsOfDays(dirs, first, day + 1)
         == RowsOfDays(dirs, first, day) + if day in dirs then Flatten(Sort(dirs[day], NameLe)) else []
  {
  }

  lemma NothingStored(dirs: Directories, events: seq<Event>, fileName: int -> string)
    requires !AllInCalendar(events)
    ensures AfterBatch(dirs, events, fileName) == dirs
  {
  }

  lemma {:induction false} AfterBatchIs(dirs: Directories, events: seq<Event>, fileName: int -> string)
    requires AllInCalendar(events)
    ensures AfterBatch(dirs, events, fileName) == Written(dirs, SortedSet(Days(events)), events, fileName)
  {
  }

  method ReadDirectory(fragments: seq<Fragment>, start: Dict, ghost base: seq<Event>, t0: int, t1: int)
    returns (seen: Dict)
    requires start == Scan(base, t0, t1)
    ensures seen == Scan(base + Flatten(fragments), t0, t1)
  {
    hide Scan, Flatten;
    seen := start;
    FlattenNone();
    assert base + [] == base;
    for f := 0 to |fragments|
      invariant seen == Scan(base + Flatten(fragments[..f]), t0, t1)
    {
      ghost var before := base + Flatten(fragments[..f]);
      seen := ReadFragment(fragments[f].rows, seen, before, t0, t1);
      FlattenAppend(fragments[..f], fragments[f]);
      assert fragments[..f + 1] == fragments[..f] + [fragments[f]];
      assert before + fragments[f].rows == base + Flatten(fragments[..f + 1]);
    }
    assert fragments[..|fragments|] == fragments;
  }

  lemma FlattenNone()
    ensures Flatten([]) == []
  {
  }

  method ReadFragment(rows: seq<Event>, start: Dict, ghost before: seq<Event>, t0: int, t1: int) returns (seen: Dict)
    requires start == Scan(before, t0, t1)
    ensures seen == Scan(before + rows, t0, t1)
  {
    hide InsertRow;
    seen := start;
    assert before + rows[..0] == before;
    for line := 0 to |rows|
      invariant seen == Scan(before + rows[..line], t0, t1)
    {
      ghost var prefix := before + rows[..line + 1];
      assert prefix[..|prefix| - 1] == before + rows[..line];
      seen := InsertRow(seen, rows[line], t0, t1);
    }
    assert rows[..|rows|] == rows;
  }

  lemma NoDates()
    ensures Days([]) == {}
  {
  }

  lemma {:induction false} GroupStep(events: seq<Event>, e: Event)
    ensures Days(events + [e]) == Days(events) + {DayOf(e.tradeTimeMs)}
    ensures forall day: int ::
              OnDay(events + [e], day) == OnDay(events, day) + if DayOf(e.tradeTimeMs) == day then [e] else []
  {
    assert (events + [e])[..|events|] == events;
    assert forall x :: x in events + [e] <==> x in events || x == e;
    assert e in events + [e];
  }

  /** The dates are computed as the groups fill, so a trade time outside the calendar ends it. */
  method GroupByTradeDate(events: seq<Event>) returns (groups: map<int, seq<Event>>, raises: bool)
    ensures raises <==> !AllInCalendar(events)
    ensures !raises ==> groups.Keys == Days(events)
    ensures !raises ==> forall day :: day in groups ==> groups[day] == OnDay(events, day)
  {
    hide InCalendar, OnDay, Days;
    NothingOnAnyDay();
    groups := map[];
    NoDates();
    for i := 0 to |events|
      invariant AllInCalendar(events[..i])
      invariant groups.Keys == Days(events[..i])
      invariant forall day :: day in groups ==> groups[day] == OnDay(events[..i], day)
    {
      if !InCalendar(events[i]) {
        assert events[i] in events;
        return groups, true;
      }
      var day := DayOf(events[i].tradeTimeMs);
      assert events[..i + 1] == events[..i] + [events[i]];
      DayWithoutEvents(events[..i], day);
      GroupStep(events[..i], events[i]);
      groups := groups[day := (if day in groups then groups[day] else []) + [events[i]]];
    }
    assert events[..|events|] == events;
    raises := false;
  }

  // ----- what a read returns -----------------------------------------------------------------

  predicate HasKey(events: seq<Event>, k: Key) {
    exists e :: e in events && e.DedupKey() == k
  }

  /** The key was written under its own trade date. */
  ghost predicate StoredKey(dirs: Directories, k: Key) {
    HasKey(Rows(dirs, DayOf(k.tradeTimeMs)), k)
  }

  predicate InWindow(k: Key, t0: int, t1: int) {
    t0 <= k.tradeTimeMs <= t1
  }

  lemma {:induction false} ScanKeys(rows: seq<Event>, t0: int, t1: int)
    ensures forall k :: k in Scan(rows, t0, t1).values <==> InWindow(k, t0, t1) && HasKey(rows, k)
  {
    if rows != [] {
      var front, last := rows[..|rows| - 1], rows[|rows| - 1];
      assert rows == front + [last];
      ScanKeys(front, t0, t1);
      forall k ensures HasKey(rows, k) <==> HasKey(front, k) || last.DedupKey() == k {
        if HasKey(front, k) {
          var e :| e in front && e.DedupKey() == k;
          assert e in rows;
        }
        if last.DedupKey() == k { assert last in rows; }
      }
    }
  }

  lemma {:induction false} RowsOfDaysElements(dirs: Directories, first: int, end: int)
    requires first <= end && Partitioned(dirs)
    ensures forall e :: e in RowsOfDays(dirs, first, end)
                   <==> first <= DayOf(e.tradeTimeMs) < end && e in Rows(dirs, DayOf(e.tradeTimeMs))
    decreases end - first
  {
    hide Rows, RowsRead, DayOf, InCalendar;
    if first < end {
      RowsOfDaysElements(dirs, first, end - 1);
      RowsReadElements(dirs, end - 1);
    }
  }

  lemma {:induction false} FlattenElements(fragments: seq<Fragment>)
    ensures forall e :: e in Flatten(fragments) <==> exists f :: f in fragments && e in f.rows
  {
    if fragments != [] {
      var front, last := fragments[..|fragments| - 1], fragments[|fragments| - 1];
      FlattenElements(front);
      assert fragments == front + [last];
    }
  }

  /** Reading in the order of the names reads what was written. */
  lemma RowsReadElements(dirs: Directories, day: int)
    ensures forall e :: e in RowsRead(dirs, day) <==> e in Rows(dirs, day)
  {
    if day in dirs {
      SortKeepsElements(dirs[day], NameLe);
      FlattenElements(dirs[day]);
      FlattenElements(Sort(dirs[day], NameLe));
    }
  }

  lemma EventOrder()
    ensures TotalPreorder(EventLe)
  {
    forall x: Event, y: Event ensures EventLe(x, y) || EventLe(y, x) {
      StringLeTotal(x.symbol, y.symbol);
    }
    forall x: Event, y: Event, z: Event | EventLe(x, y) && EventLe(y, z) ensures EventLe(x, z) {
      if x.tradeTimeMs == z.tradeTimeMs { StringLeTransitive(x.symbol, y.symbol, z.symbol); }
    }
  }

  predicate DifferentKeys(a: Event, b: Event) {
    a.DedupKey() != b.DedupKey()
  }

  /** A read returns exactly the stored keys of the window, each once, in time order: the padded
      directory scan misses nothing, whatever the split into fragments. */
  lemma WindowIsExact(dirs: Directories, t0: int, t1: int)
    requires t0 <= t1 && Partitioned(dirs)
    ensures var r := WindowEvents(dirs, t0, t1);
            && (forall k :: HasKey(r, k) <==> InWindow(k, t0, t1) && StoredKey(dirs, k))
            && Pairwise(r, EventLe) && Pairwise(r, DifferentKeys)
  {
    DayOfMonotone(t0, t1);
    var rows := RowsOfDays(dirs, DayOf(t0) - 1, DayOf(t1) + 2);
    WindowRowsExact(dirs, t0, t1);
    hide Rows, Scan, RowsOfDays, Values, Sort, DayOf;
    ScanKeys(rows, t0, t1);
    SortedValues(Scan(rows, t0, t1));
  }

  /** The days scanned hold every stored key of the window. */
  lemma {:induction false} WindowRowsExact(dirs: Directories, t0: int, t1: int)
    requires t0 <= t1 && Partitioned(dirs) && DayOf(t0) <= DayOf(t1)
    ensures forall k :: InWindow(k, t0, t1) ==>
              (HasKey(RowsOfDays(dirs, DayOf(t0) - 1, DayOf(t1) + 2), k) <==> StoredKey(dirs, k))
  {
    var rows := RowsOfDays(dirs, DayOf(t0) - 1, DayOf(t1) + 2);
    RowsOfDaysElements(dirs, DayOf(t0) - 1, DayOf(t1) + 2);
    hide Rows, RowsOfDays;
    forall k | InWindow(k, t0, t1) ensures HasKey(rows, k) <==> StoredKey(dirs, k) {
      DayOfMonotone(t0, k.tradeTimeMs);
      DayOfMonotone(k.tradeTimeMs, t1);
      hide DayOf;
      if HasKey(rows, k) {
        var e :| e in rows && e.DedupKey() == k;
        assert e in Rows(dirs, DayOf(k.tradeTimeMs));
      }
      if StoredKey(dirs, k) {
        var e :| e in Rows(dirs, DayOf(k.tradeTimeMs)) && e.DedupKey() == k;
        assert e in rows;
      }
    }
  }

  lemma SortedValues(d: Dict)
    requires d.Consistent()
    ensures var r := Sort(Values(d), EventLe);
            && (forall k :: HasKey(r, k) <==> k in d.values)
            && Pairwise(r, EventLe) && Pairwise(r, DifferentKeys)
  {
    var values := Values(d);
    SortKeepsElements(values, EventLe);
    EventOrder();
    SortSorts(values, EventLe);
    SortKeepsSymmetric(values, EventLe, DifferentKeys);
    forall k ensures HasKey(Sort(values, EventLe), k) <==> k in d.values {
      ValuesHaveKeys(d, k);
    }
  }

  lemma ValuesHaveKeys(d: Dict, k: Key)
    requires d.Consistent()
    ensures HasKey(Values(d), k) <==> k in d.values
  {
    if k in d.values {
      assert k in d.order;
      var i :| 0 <= i < |d.order| && d.order[i] == k;
      assert Values(d)[i] in Values(d);
    }
    if HasKey(Values(d), k) {
      var e :| e in Values(d) && e.DedupKey() == k;
      var i :| 0 <= i < |d.order| && Values(d)[i] == e;
      assert d.order[i] in d.order;
    }
  }

  /** `liquidations_in_window`: the read is clamped to the as-of instant. */
  function LiquidationsInWindow(dirs: Directories, t0: int, t1: int, now: int): Result<seq<Event>, ReadError> {
    var upper := if t1 < now then t1 else now;
    if t0 > upper then Success([]) else ReadResult(dirs, t0, upper)
  }

  /** Asking earlier answers whenever asking later does, with what the later answer gives less the
      trades made in between. */
  lemma EarlierNowIsAFilter(dirs: Directories, t0: int, t1: int, earlier: int, later: int)
    requires Partitioned(dirs) && earlier <= later
    ensures LiquidationsInWindow(dirs, t0, t1, later).Success? ==>
              && LiquidationsInWindow(dirs, t0, t1, earlier).Success?
              && forall k :: HasKey(LiquidationsInWindow(dirs, t0, t1, earlier).value, k)
                        <==> HasKey(LiquidationsInWindow(dirs, t0, t1, later).value, k) && k.tradeTimeMs <= earlier
  {
    hide WindowEvents, DayOf, Partitioned;
    var low, high := if t1 < earlier then t1 else earlier, if t1 < later then t1 else later;
    if t0 <= low {
      DayOfMonotone(low, high);
      WindowIsExact(dirs, t0, low);
    }
    if t0 <= high { WindowIsExact(dirs, t0, high); }
  }

  /** What a read up to `now` gives: the stored keys of the window that are not later, and nothing for a
      window that begins later. */
  lemma NowWindowIsExact(dirs: Directories, t0: int, t1: int, now: int)
    requires Partitioned(dirs) && LiquidationsInWindow(dirs, t0, t1, now).Success?
    ensures forall k :: HasKey(LiquidationsInWindow(dirs, t0, t1, now).value, k)
                   <==> t0 <= k.tradeTimeMs <= t1 && k.tradeTimeMs <= now && StoredKey(dirs, k)
  {
    hide WindowEvents, DayOf, Partitioned, StoredKey;
    var upper := if t1 < now then t1 else now;
    if t0 <= upper { WindowIsExact(dirs, t0, upper); }
  }

  /** Which windows are refused: a reversed one, and one that begins less than a day after the calendar does or
      ends less than two days before it ends, since the days around it are read too. */
  lemma RefusedWindows(dirs: Directories, t0: int, t1: int)
    ensures ReadResult(dirs, t0, t1).Failure?
       <==> t1 < t0 || t0 < (FIRST_DAY + 1) * DAY_MS || (LAST_DAY - 1) * DAY_MS <= t1
    ensures ReadResult(dirs, t0, t1).Success? ==> ReadResult(dirs, t0, t1).value == WindowEvents(dirs, t0, t1)
  {
    hide WindowEvents;
  }

  /** The calendar in days. */
  lemma CalendarInDays(e: Event)
    ensures InCalendar(e) <==> -719162 <= DayOf(e.tradeTimeMs) <= 2932896
  {
  }

  // ----- many batches ---------------------------------------------------------------------------

  /** The directories after writing the batches in turn, the n-th with its own file names. */
  function AfterBatches(dirs: Directories, batches: seq<seq<Event>>, fileName: (nat, int) -> string): Directories {
    if batches == [] then dirs
    else
      var n := |batches| - 1;
      AfterBatch(AfterBatches(dirs, batches[..n], fileName), batches[n], day => fileName(n, day))
  }

  /** The key is in some batch that could be written: one with every trade time in the calendar. */
  ghost predicate InWholeBatch(batches: seq<seq<Event>>, k: Key) {
    exists b :: b in batches && AllInCalendar(b) && HasKey(b, k)
  }

  lemma BatchStoresKeys(dirs: Directories, events: seq<Event>, fileName: int -> string)
    requires Partitioned(dirs)
    ensures Partitioned(AfterBatch(dirs, events, fileName))
    ensures forall k :: StoredKey(AfterBatch(dirs, events, fileName), k)
                   <==> StoredKey(dirs, k) || (AllInCalendar(events) && HasKey(events, k))
  {
    hide Rows, OnDay, DayOf, InCalendar, Written, Days;
    if AllInCalendar(events) {
      BatchAddsRows(dirs, events, fileName);
      hide AfterBatch;
      var after := AfterBatch(dirs, events, fileName);
      forall day: int, e | e in Rows(after, day) ensures DayOf(e.tradeTimeMs) == day && InCalendar(e) {
        OnDayElements(events, day);
      }
      forall k ensures StoredKey(after, k) <==> StoredKey(dirs, k) || HasKey(events, k) {
        StoredPlus(after, dirs, events, k);
      }
    }
  }

  lemma {:induction false} StoredPlus(after: Directories, before: Directories, events: seq<Event>, k: Key)
    requires Rows(after, DayOf(k.tradeTimeMs))
        == Rows(before, DayOf(k.tradeTimeMs)) + OnDay(events, DayOf(k.tradeTimeMs))
    ensures StoredKey(after, k) <==> StoredKey(before, k) || HasKey(events, k)
  {
    hide Rows, OnDay, DayOf;
    var day := DayOf(k.tradeTimeMs);
    OnDayElements(events, day);
    if StoredKey(before, k) {
      var e :| e in Rows(before, day) && e.DedupKey() == k;
      assert e in Rows(after, day);
    }
    if HasKey(events, k) {
      var e :| e in events && e.DedupKey() == k;
      assert e in Rows(after, day);
    }
  }

  /** Reading after any batches gives the keys stored before and those of every batch that could be
      written whole; a single trade time outside the calendar costs its whole batch. */
  lemma {:induction false} BatchesStoreKeys(dirs: Directories, batches: seq<seq<Event>>, fileName: (nat, int) -> string)
    requires Partitioned(dirs)
    ensures Partitioned(AfterBatches(dirs, batches, fileName))
    ensures forall k ::
              StoredKey(AfterBatches(dirs, batches, fileName), k) <==> StoredKey(dirs, k) || InWholeBatch(batches, k)
  {
    hide Partitioned, StoredKey, AfterBatch, AllInCalendar, HasKey;
    if batches != [] {
      var n := |batches| - 1;
      BatchesStoreKeys(dirs, batches[..n], fileName);
      BatchStoresKeys(AfterBatches(dirs, batches[..n], fileName), batches[n], day => fileName(n, day));
      assert batches == batches[..n] + [batches[n]];
      forall k ensures InWholeBatch(batches, k)
                  <==> InWholeBatch(batches[..n], k) || (AllInCalendar(batches[n]) && HasKey(batches[n], k))
      {
        if InWholeBatch(batches[..n], k) {
          var b :| b in batches[..n] && AllInCalendar(b) && HasKey(b, k);
          assert b in batches;
        }
        if AllInCalendar(batches[n]) && HasKey(batches[n], k) { assert batches[n] in batches; }
      }
    }
  }

  /** The event is in one of the batches. */
  ghost predicate Batched(batches: seq<seq<Event>>, e: Event) {
    exists b :: b in batches && e in b
  }

  /** However the same events were split into batches, ordered, repeated and named, every window reads
      the same keys. */
  lemma {:induction false} BatchingIsInvisible(dirs: Directories, a: seq<seq<Event>>, b: seq<seq<Event>>,
                                              nameA: (nat, int) -> string, nameB: (nat, int) -> string,
                                              t0: int, t1: int)
    requires Partitioned(dirs) && t0 <= t1
    requires (forall e :: Batched(a, e) <==> Batched(b, e)) && forall e :: Batched(a, e) ==> InCalendar(e)
    ensures forall k :: HasKey(WindowEvents(AfterBatches(dirs, a, nameA), t0, t1), k)
                   <==> HasKey(WindowEvents(AfterBatches(dirs, b, nameB), t0, t1), k)
  {
    hide WindowEvents, AfterBatches, Partitioned, StoredKey, InCalendar;
    BatchesStoreKeys(dirs, a, nameA);
    BatchesStoreKeys(dirs, b, nameB);
    WindowIsExact(AfterBatches(dirs, a, nameA), t0, t1);
    WindowIsExact(AfterBatches(dirs, b, nameB), t0, t1);
    forall k ensures InWholeBatch(a, k) <==> InWholeBatch(b, k) {
      if InWholeBatch(a, k) { SameKeys(a, b, k); }
      if InWholeBatch(b, k) { SameKeys(b, a, k); }
    }
  }

  lemma SameKeys(a: seq<seq<Event>>, b: seq<seq<Event>>, k: Key)
    requires InWholeBatch(a, k)
    requires (forall e :: Batched(a, e) ==> Batched(b, e)) && forall e :: Batched(b, e) ==> InCalendar(e)
    ensures InWholeBatch(b, k)
  {
    var batch :| batch in a && AllInCalendar(batch) && HasKey(batch, k);
    var e :| e in batch && e.DedupKey() == k;
    assert Batched(a, e);
    var other :| other in b && e in other;
    forall f | f in other ensures InCalendar(f) { assert Batched(b, f); }
  }

  /** A read depends only on which rows each day holds, not on the fragments they were written in, nor
      on the names that order them. */
  lemma ReadIgnoresFragments(a: Directories, b: Directories, t0: int, t1: int)
    requires Partitioned(a) && Partitioned(b) && t0 <= t1
    requires forall day: int, e :: e in Rows(a, day) <==> e in Rows(b, day)
    ensures forall k :: HasKey(WindowEvents(a, t0, t1), k) <==> HasKey(WindowEvents(b, t0, t1), k)
  {
    WindowIsExact(a, t0, t1);
    WindowIsExact(b, t0, t1);
    hide WindowEvents, Rows, DayOf, InCalendar;
    forall k ensures StoredKey(a, k) <==> StoredKey(b, k) {
      var day := DayOf(k.tradeTimeMs);
      if e :| e in Rows(a, day) && e.DedupKey() == k { assert e in Rows(b, day); }
      if e :| e in Rows(b, day) && e.DedupKey() == k { assert e in Rows(a, day); }
    }
  }
}
