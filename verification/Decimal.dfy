/**
 * The fixed-point Decimal (common/decimal.hpp): raw values are signed 128 bit
 * integers scaled by 10^18.  Signed overflow is undefined in the program; here
 * an operation that would overflow ends in Overflow.
 */
module Decimal {
  import opened Arithmetic

  const TWO_127: int := 0x8000_0000_0000_0000_0000_0000_0000_0000
  const TWO_128: int := 0x1_0000_0000_0000_0000_0000_0000_0000_0000

  type Int128 = x: int | -TWO_127 <= x < TWO_127

  const SCALE: nat := 1_000_000_000_000_000_000

  datatype Outcome = Value(raw: Int128) | DivisionByZero | Overflow

  /** What multiplication and division compute in: plain 128 bit integers (the
      default), or 256 bits. */
  datatype Backend = Narrow | Wide

  function Abs(x: int): nat { if x < 0 then -x else x }

  predicate Fits(x: int) { -TWO_127 <= x < TWO_127 }

  /** n modulo 2^128. */
  function Low128(n: nat): (r: nat)
    ensures r < TWO_128 && (n < TWO_128 ==> r == n)
  {
    if n < TWO_128 then n else Low128(n - TWO_128)
  }

  lemma {:induction false} Low128OfMultiple(n: nat)
    ensures Low128(TWO_128 * n) == 0
  {
    if n > 0 { Low128OfMultiple(n - 1); }
  }

  /** to_uint128, and the cast of its result to a signed integer. */
  function Narrowed(wide: nat): (r: Int128)
    ensures wide < TWO_127 ==> r == wide
  {
    var low := Low128(wide);
    if low < TWO_127 then low else low - TWO_128
  }

  function Signed(magnitude: int, negative: bool): int { if negative then -magnitude else magnitude }

  function ToOutcome(raw: int): Outcome { if Fits(raw) then Value(raw) else Overflow }

  /** The magnitudes are multiplied in full, divided by the scale, and narrowed. */
  function Multiply(backend: Backend, a: Int128, b: Int128): Outcome {
    var product := Product(Abs(a), Abs(b));
    if !Fits(Abs(a)) || !Fits(Abs(b)) || (backend.Narrow? && !Fits(product)) then Overflow
    else ToOutcome(Signed(Narrowed(Quotient(product, SCALE)), (a < 0) != (b < 0)))
  }

  function Divide(backend: Backend, a: Int128, b: Int128): Outcome {
    var numerator := Product(Abs(a), SCALE);
    if b == 0 then DivisionByZero
    else if !Fits(Abs(a)) || !Fits(Abs(b)) || (backend.Narrow? && !Fits(numerator)) then Overflow
    else ToOutcome(Signed(Narrowed(Quotient(numerator, Abs(b))), (a < 0) != (b < 0)))
  }

  function Add(a: Int128, b: Int128): Outcome { ToOutcome(a + b) }

  function Subtract(a: Int128, b: Int128): Outcome { ToOutcome(a - b) }

  /** The 256 bit intermediate of the wide backend never wraps around. */
  lemma WideIntermediatesFit(a: Int128, b: Int128)
    ensures Product(Abs(a), Abs(b)) < TWO_128 * TWO_128 && Product(Abs(a), SCALE) < TWO_128 * TWO_128
  {
    MulMonotone(Abs(a), TWO_127, Abs(b));
    MulMonotone(Abs(b), TWO_127, TWO_127);
    MulMonotone(Abs(a), TWO_127, SCALE);
  }

  // ----- exactness -------------------------------------------------------

  /** A magnitude survives narrowing and signing just when it is below 2^127. */
  lemma NarrowingExactIff(m: nat, negative: bool)
    ensures ToOutcome(Signed(Narrowed(m), negative)) == ToOutcome(Signed(m, negative)) && Fits(Signed(m, negative))
            <==> m < TWO_127
  {
  }

  /** r is the exact product, rounded toward zero to a multiple of 10^-18. */
  ghost predicate IsRoundedProduct(r: int, a: int, b: int) {
    r == Signed(Quotient(Product(Abs(a), Abs(b)), SCALE), (a < 0) != (b < 0))
  }

  ghost predicate IsRoundedQuotient(r: int, a: int, b: int)
    requires b != 0
  {
    r == Signed(Quotient(Product(Abs(a), SCALE), Abs(b)), (a < 0) != (b < 0))
  }

  /** Multiplication gives the rounded product exactly while both magnitudes and
      the intermediate fit: the whole double-scaled product in the narrow backend,
      only the result in the wide one. */
  lemma MultiplyExactIff(backend: Backend, a: Int128, b: Int128)
    ensures (Multiply(backend, a, b).Value? && IsRoundedProduct(Multiply(backend, a, b).raw, a, b))
            <==> a != -TWO_127 && b != -TWO_127
                 && (if backend.Narrow? then Product(Abs(a), Abs(b)) < TWO_127
                     else Quotient(Product(Abs(a), Abs(b)), SCALE) < TWO_127)
  {
  }

  lemma DivideExactIff(backend: Backend, a: Int128, b: Int128)
    requires b != 0
    ensures (Divide(backend, a, b).Value? && IsRoundedQuotient(Divide(backend, a, b).raw, a, b))
            <==> a != -TWO_127 && b != -TWO_127
                 && (if backend.Narrow? then Product(Abs(a), SCALE) < TWO_127
                     else Quotient(Product(Abs(a), SCALE), Abs(b)) < TWO_127)
  {
    var numerator := Product(Abs(a), SCALE);
    QuotientShrinks(numerator, Abs(b));
    NarrowingExactIff(Quotient(numerator, Abs(b)), (a < 0) != (b < 0));
  }

  /** What rounding means: toward zero, by less than one unit. */
  lemma ProductRounding(r: int, a: int, b: int)
    requires IsRoundedProduct(r, a, b)
    ensures Abs(r) * SCALE <= Product(Abs(a), Abs(b)) < Abs(r) * SCALE + SCALE
    ensures r != 0 ==> (r < 0 <==> (a < 0) != (b < 0))
  {
  }

  lemma QuotientRounding(r: int, a: int, b: int)
    requires b != 0 && IsRoundedQuotient(r, a, b)
    ensures Abs(r) * Abs(b) <= Abs(a) * SCALE < Abs(r) * Abs(b) + Abs(b)
    ensures r != 0 ==> (r < 0 <==> (a < 0) != (b < 0))
  {
  }

  /** The default backend cannot multiply 20 by 20: the double-scaled product
      4 * 10^38 is above 2^127.  The wide backend can. */
  lemma TwentyTimesTwenty()
    ensures Multiply(Narrow, 20 * SCALE, 20 * SCALE) == Overflow
    ensures Multiply(Wide, 20 * SCALE, 20 * SCALE) == Value(400 * SCALE)
  {
  }

  /** Multiplying by an integer loses nothing, and dividing by it again gives
      back the factor. */
  lemma IntegerFactorDividesBack(a: Int128, n: nat)
    requires a != -TWO_127 && 0 < n && Fits(n * SCALE) && Fits(Abs(a) * n)
    ensures Fits(a * n) && Multiply(Wide, a, n * SCALE) == Value(a * n)
    ensures Divide(Wide, a * n, n * SCALE) == Value(a)
  {
    var m := Abs(a);
    MulNonNegative(m, n);
    assert Abs(a * n) == m * n;
    assert m * (n * SCALE) == (m * n) * SCALE;
    ExactQuotient(m * n, SCALE);
    assert (m * n) * SCALE == m * (n * SCALE);
    ExactQuotient(m, n * SCALE);
    SignOfMultiple(a, n);
  }

  lemma SignOfMultiple(a: int, n: nat)
    requires n > 0
    ensures a < 0 <==> a * n < 0
    ensures Abs(a * n) == Abs(a) * n && a * n == Signed(Abs(a) * n, a < 0)
  {
  }
}
