/**
 Shared arithmetic, and facts about products and quotients of reals that the solver needs one at a
 time.
 A product is passed as a parameter of its own where a caller has to recognise it.
 */
module RealArithmetic {
  function Abs(x: real): real {
    if x < 0.0 then -x else x
  }

  /** The larger of two integers. */
  function MaxOfTwo(a: int, b: int): int {
    if a < b then b else a
  }

  function LargerReal(a: real, b: real): real {
    if a < b then b else a
  }

  lemma DivTimes(a: real, b: real)
    requires b != 0.0
    ensures b * (a / b) == a
    ensures (a / b) * b == a
  {
  }

  /** The product is a parameter so that callers can pass it by name. */
  lemma ProductPositive(a: real, b: real, product: real)
    requires 0.0 < a && 0.0 < b && product == a * b
    ensures 0.0 < product
  {
  }

  lemma CancelPositive(a: real, b: real, c: real)
    requires 0.0 < c && a * c >= b * c
    ensures a >= b
  {
    if a < b { ProductPositive(b - a, c, (b - a) * c); }
  }

  lemma CancelEqual(a: real, b: real, c: real)
    requires c > 0.0 && a * c == b * c
    ensures a == b
  {
    CancelPositive(a, b, c);
    CancelPositive(b, a, c);
  }

  lemma SquareNonNegative(x: real)
    ensures 0.0 <= x * x
  {
  }

  lemma ScaledNonNegative(a: real, b: real, product: real)
    requires 0.0 <= a && 0.0 <= b && product == a * b
    ensures 0.0 <= product
  {
  }

  lemma ProductZero(a: real, b: real)
    requires a * b == 0.0 && b != 0.0
    ensures a == 0.0
  {
  }

  lemma ProductMonotone(a: real, b: real, c: real, d: real, low: real, high: real)
    requires 0.0 <= a <= b && 0.0 <= c <= d && low == a * c && high == b * d
    ensures 0.0 <= low <= high
  {
    assert 0.0 <= (b - a) * d && 0.0 <= a * (d - c) && 0.0 <= a * c;
    assert high - low == (b - a) * d + a * (d - c);
  }

  lemma DivisionMonotone(x: real, y: real, root: real)
    requires x <= y && 0.0 < root
    ensures x / root <= y / root
  {
  }

  /** Python's `round` to an integer: ties go to the even neighbour. */
  function RoundHalfEven(x: real): (r: int)
    ensures -0.5 <= r as real - x <= 0.5
  {
    var low := x.Floor;
    var part := x - low as real;
    if part < 0.5 || (part == 0.5 && low % 2 == 0) then low else low + 1
  }
}
