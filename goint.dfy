/** Go's fixed-width integers and its truncating integer division.
    Dafny's `/` and `%` are Euclidean; Go's `/` rounds toward zero and its
    `%` takes the sign of the dividend, so both are written out here. */
module GoInt {

  /** Go's `uint8` (also `byte`). */
  newtype uint8 = x: int | 0 <= x < 256

  function Abs(a: int): (r: nat)
    ensures r == a || r == -a
  {
    if a < 0 then -a else a
  }

  /** Go's `a / b` on signed integers: the quotient rounded toward zero. */
  function GoDiv(a: int, b: int): (q: int)
    requires b != 0
    ensures Abs(q) == Abs(a) / Abs(b)
    ensures q != 0 ==> ((q < 0) <==> ((a < 0) != (b < 0)))
  {
    var m := Abs(a) / Abs(b);
    DivNonNegative(Abs(a), Abs(b));
    if (a < 0) != (b < 0) then -m else m
  }

  /** A non-negative dividend over a positive divisor has a non-negative
      quotient. */
  lemma DivNonNegative(x: int, y: int)
    requires x >= 0 && y > 0
    ensures x / y >= 0
  {
  }

  /** Go's `a % b`: what is left after `GoDiv`, with the sign of `a`. */
  function GoMod(a: int, b: int): (r: int)
    requires b != 0
    ensures a == GoDiv(a, b) * b + r
  {
    a - GoDiv(a, b) * b
  }

  /** On non-negative operands Go and Dafny agree. */
  lemma NonNegativeDivision(a: int, b: int)
    requires a >= 0 && b > 0
    ensures GoDiv(a, b) == a / b && GoMod(a, b) == a % b
  {
  }

  /** The ceiling of `a / b` for a positive divisor (Go's `math.Ceil` of an
      exact quotient). */
  function CeilDiv(a: int, b: int): (q: int)
    requires b > 0
    ensures (q - 1) * b < a <= q * b
  {
    -((-a) / b)
  }

  /** A quotient and remainder are determined by any remainder in `[0, b)`. */
  lemma DivUnique(x: int, b: int, q: int, rem: int)
    requires b > 0 && 0 <= rem < b && x == q * b + rem
    ensures x / b == q && x % b == rem
  {
    var q' := x / b;
    var r' := x % b;
    assert (q - q') * b == r' - rem;
    if q > q' {
      MulAtLeast(q - q', b);
    } else if q < q' {
      MulAtLeast(q' - q, b);
    }
  }

  lemma MulAtLeast(n: int, b: int)
    requires n >= 1 && b > 0
    ensures n * b >= b
  {
  }
}
