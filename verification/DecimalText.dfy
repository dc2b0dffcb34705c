/**
 * Decimal::fromString and Decimal::toString (common/decimal.hpp): parser,
 * printer, and what a trip through text does to a value.
 */
module DecimalText {
  import opened Arithmetic
  import opened Decimal

  datatype Parsed = Ok(raw: Int128) | Empty | Invalid | TooLarge

  const LARGEST: int := TWO_127 - 1

  /** The scale, in digits. */
  const DECIMALS: nat := 18

  // ----- digits ----------------------------------------------------------

  predicate IsDigit(c: char) { '0' <= c <= '9' }

  function DigitChar(d: nat): (c: char)
    requires d < 10
    ensures IsDigit(c) && DigitOf(c) == d
  {
    '0' + d as char
  }

  function DigitOf(c: char): (d: nat)
    requires IsDigit(c)
    ensures d < 10
  {
    (c - '0') as nat
  }

  predicate AllDigits(s: string) { forall i :: 0 <= i < |s| ==> IsDigit(s[i]) }

  /** The number a string of digits denotes. */
  function NumberOf(s: string): nat
    requires AllDigits(s)
  {
    if s == "" then 0 else NumberOf(s[..|s| - 1]) * 10 + DigitOf(s[|s| - 1])
  }

  /** The end of the run of digits that starts at i. */
  function DigitsEnd(s: string, i: nat): (e: nat)
    requires i <= |s|
    ensures i <= e <= |s| && AllDigits(s[i..e]) && (e < |s| ==> !IsDigit(s[e]))
    decreases |s| - i
  {
    if i < |s| && IsDigit(s[i]) then
      var e := DigitsEnd(s, i + 1);
      assert s[i..e] == [s[i]] + s[i + 1..e];
      e
    else i
  }

  function Pow10(k: nat): nat { if k == 0 then 1 else 10 * Pow10(k - 1) }

  // ----- what the parser accepts -----------------------------------------

  /** The first 18 digits behind the point, in units of 10^-18. */
  function FractionOf(s: string): nat
    requires AllDigits(s)
  {
    if |s| <= DECIMALS then NumberOf(s) * Pow10(DECIMALS - |s|) else NumberOf(s[..DECIMALS])
  }

  function SignLength(text: string): nat { if text != "" && (text[0] == '+' || text[0] == '-') then 1 else 0 }

  /** An optional sign, digits, and optionally a point with digits; more than 18
      decimals are cut off. */
  function Parse(text: string): Parsed {
    var i := SignLength(text);
    if text == "" then Empty
    else if i >= |text| || !IsDigit(text[i]) then Invalid
    else
      var e := DigitsEnd(text, i);
      var integral := NumberOf(text[i..e]);
      if integral > LARGEST then TooLarge
      else if e == |text| then Scaled(text[0] == '-', integral, 0)
      else if text[e] != '.' then Invalid
      else
        var f := DigitsEnd(text, e + 1);
        if f != |text| then Invalid else Scaled(text[0] == '-', integral, FractionOf(text[e + 1..f]))
  }

  function Scaled(negative: bool, integral: nat, fraction: nat): Parsed {
    var raw := integral * SCALE + fraction;
    if raw > LARGEST then TooLarge else if negative then Ok(-raw) else Ok(raw)
  }

  // ----- what the printer prints -----------------------------------------

  function Digits(n: nat): (s: string)
    ensures AllDigits(s)
  {
    if n == 0 then "" else Digits(n / 10) + [DigitChar(n % 10)]
  }

  function IntegerText(n: nat): (s: string)
    ensures AllDigits(s) && |s| > 0
  {
    if n == 0 then "0" else Digits(n)
  }

  /** n modulo 10^k, as k digits. */
  function Padded(n: nat, k: nat): (s: string)
    ensures |s| == k && AllDigits(s)
  {
    if k == 0 then "" else Padded(n / 10, k - 1) + [DigitChar(n % 10)]
  }

  function Clamp(precision: int): nat { if precision < 0 then 0 else if precision > DECIMALS then DECIMALS else precision }

  function Zeros(k: nat): string { seq(k, i => '0') }

  function Print(x: Int128, precision: int): string {
    var p := Clamp(precision);
    if x == 0 then (if p == 0 then "0" else "0." + Zeros(p))
    else
      var sign := if x < 0 then "-" else "";
      var integral := IntegerText(Abs(x) / SCALE);
      if p == 0 then sign + integral else sign + integral + "." + Padded(Abs(x) % SCALE, DECIMALS)[..p]
  }

  // ----- the program -----------------------------------------------------

  /** The run of digits, one longer. */
  lemma NextDigit(text: string, i: nat, end: nat)
    requires i <= end < |text| && AllDigits(text[i..end]) && IsDigit(text[end])
    ensures AllDigits(text[i..end + 1])
    ensures NumberOf(text[i..end + 1]) == NumberOf(text[i..end]) * 10 + DigitOf(text[end])
  {
    assert text[i..end + 1] == text[i..end] + [text[end]];
    assert text[i..end + 1][..end - i] == text[i..end];
  }

  /** Reads the digits from i on; ok is false when the number is too large. */
  method ReadIntegral(text: string, i: nat) returns (integral: nat, end: nat, ok: bool)
    requires i <= |text|
    ensures end == DigitsEnd(text, i)
    ensures ok <==> NumberOf(text[i..end]) <= LARGEST
    ensures ok ==> integral == NumberOf(text[i..end])
  {
    integral, end, ok := 0, i, true;
    while end < |text| && IsDigit(text[end])
      invariant i <= end <= |text| && DigitsEnd(text, end) == DigitsEnd(text, i) && AllDigits(text[i..end])
      invariant ok <==> NumberOf(text[i..end]) <= LARGEST
      invariant ok ==> integral == NumberOf(text[i..end])
    {
      NextDigit(text, i, end);
      ok := ok && integral * 10 + DigitOf(text[end]) <= LARGEST;
      if ok { integral := integral * 10 + DigitOf(text[end]); }
      end := end + 1;
    }
  }

  lemma CutDigits(text: string, i: nat, end: nat, k: nat)
    requires i <= end <= |text| && k <= end - i && AllDigits(text[i..end])
    ensures text[i..end][..k] == text[i..i + k]
  {
  }

  /** Reads the digits behind the point; the first 18 of them count. */
  method ReadDecimals(text: string, i: nat) returns (number: nat, digits: nat, end: nat)
    requires i <= |text|
    ensures end == DigitsEnd(text, i) && digits == (if end - i < DECIMALS then end - i else DECIMALS)
    ensures AllDigits(text[i..i + digits]) && number == NumberOf(text[i..i + digits])
  {
    number, digits, end := 0, 0, i;
    while end < |text| && IsDigit(text[end])
      invariant i <= end <= |text| && DigitsEnd(text, end) == DigitsEnd(text, i)
      invariant digits == (if end - i < DECIMALS then end - i else DECIMALS) && AllDigits(text[i..i + digits])
      invariant number == NumberOf(text[i..i + digits])
    {
      if digits < DECIMALS {
        NextDigit(text, i, end);
        number := number * 10 + DigitOf(text[end]);
        digits := digits + 1;
      }
      end := end + 1;
    }
  }

  /** The digits behind the point, scaled up to 18. */
  method ReadFraction(text: string, i: nat) returns (fraction: nat, end: nat)
    requires i <= |text|
    ensures end == DigitsEnd(text, i) && fraction == FractionOf(text[i..end])
  {
    var digits;
    fraction, digits, end := ReadDecimals(text, i);
    CutDigits(text, i, end, digits);
    fraction := ScaleUp(fraction, digits);
  }

  method ScaleUp(read: nat, digits: nat) returns (fraction: nat)
    requires digits <= DECIMALS
    ensures fraction == read * Pow10(DECIMALS - digits)
  {
    fraction := read;
    var k := digits;
    while k < DECIMALS
      invariant digits <= k <= DECIMALS && fraction == read * Pow10(k - digits)
    {
      Associates(read, Pow10(k - digits), 10);
      assert Pow10(k + 1 - digits) == Pow10(k - digits) * 10;
      fraction := fraction * 10;
      k := k + 1;
    }
  }

  method FromString(text: string) returns (r: Parsed)
    ensures r == Parse(text)
  {
    if text == "" { return Empty; }
    var negative, index := false, 0;
    if text[index] == '+' || text[index] == '-' {
      negative := text[index] == '-';
      index := index + 1;
    }
    if index >= |text| || !IsDigit(text[index]) { return Invalid; }
    var integral, end, ok := ReadIntegral(text, index);
    if !ok { return TooLarge; }
    var fraction := 0;
    if end < |text| {
      if text[end] != '.' { return Invalid; }
      fraction, end := ReadFraction(text, end + 1);
    }
    if end != |text| { return Invalid; }
    var raw := integral * SCALE + fraction;
    if raw > LARGEST { return TooLarge; }
    if negative { raw := -raw; }
    return Ok(raw);
  }

  function Reversed(s: string): string { if s == "" then "" else Reversed(s[1..]) + [s[0]] }

  lemma {:induction false} ReversedAppend(s: string, c: char)
    ensures Reversed(s + [c]) == [c] + Reversed(s)
  {
    if s != "" {
      assert (s + [c])[1..] == s[1..] + [c];
      ReversedAppend(s[1..], c);
    }
  }

  /** The digits are pushed from the last to the first, and then reversed. */
  method IntegerToString(value: nat) returns (s: string)
    ensures s == IntegerText(value)
  {
    if value == 0 { return "0"; }
    var digits, tmp := "", value;
    while tmp > 0
      invariant Digits(value) == Digits(tmp) + Reversed(digits)
    {
      ReversedAppend(digits, DigitChar(tmp % 10));
      assert Digits(tmp) == Digits(tmp / 10) + [DigitChar(tmp % 10)];
      digits := digits + [DigitChar(tmp % 10)];
      tmp := tmp / 10;
    }
    s := Reversed(digits);
  }

  /** The 18 digits are filled in from the last to the first. */
  method FractionToString(value: nat) returns (s: string)
    ensures s == Padded(value, DECIMALS)
  {
    var fraction, i := value, DECIMALS - 1;
    s := Zeros(DECIMALS);
    assert s[DECIMALS..] == "" && Padded(fraction, DECIMALS) + s[DECIMALS..] == Padded(value, DECIMALS);
    while i >= 0
      invariant -1 <= i < DECIMALS && |s| == DECIMALS
      invariant Padded(fraction, i + 1) + s[i + 1..] == Padded(value, DECIMALS)
      decreases i
    {
      var c := DigitChar(fraction % 10);
      assert Padded(fraction, i + 1) == Padded(fraction / 10, i) + [c];
      assert s[i := c][i..] == [c] + s[i + 1..];
      s := s[i := c];
      fraction := fraction / 10;
      i := i - 1;
    }
    assert s[0..] == s;
  }

  lemma Regrouped(sign: string, integral: string, fraction: string)
    ensures sign + (integral + "." + fraction) == sign + integral + "." + fraction
    ensures sign == "" ==> sign + (integral + "." + fraction) == integral + "." + fraction
  {
  }

  /** The magnitude is negated first, which the smallest raw value does not
      survive. */
  method ToString(x: Int128, precision: int) returns (s: string)
    requires x != -TWO_127
    ensures s == Print(x, precision)
  {
    var p := Clamp(precision);
    if x == 0 {
      if p == 0 { return "0"; }
      return "0." + Zeros(p);
    }
    var magnitude := if x < 0 then -x else x;
    var integral := IntegerToString(magnitude / SCALE);
    if p == 0 { return (if x < 0 then "-" else "") + integral; }
    var fraction := FractionToString(magnitude % SCALE);
    if p < DECIMALS { fraction := fraction[..p]; }
    assert fraction == Padded(magnitude % SCALE, DECIMALS)[..p];
    s := integral + "." + fraction;
    if x < 0 {
      Regrouped("-", integral, fraction);
      s := "-" + s;
    } else {
      Regrouped("", integral, fraction);
    }
  }

  // ----- printing and reading back ---------------------------------------

  lemma {:induction false} DigitsDenote(n: nat)
    ensures NumberOf(Digits(n)) == n
  {
    if n > 0 {
      DigitsDenote(n / 10);
      assert Digits(n)[..|Digits(n)| - 1] == Digits(n / 10);
    }
  }

  lemma {:induction false} PaddedDenotes(n: nat, k: nat)
    requires n < Pow10(k)
    ensures NumberOf(Padded(n, k)) == n
  {
    if k > 0 {
      PaddedDenotes(n / 10, k - 1);
      assert Padded(n, k)[..k - 1] == Padded(n / 10, k - 1);
    }
  }

  lemma {:induction false} Pow10Positive(k: nat)
    ensures Pow10(k) > 0
  {
    if k > 0 { Pow10Positive(k - 1); }
  }

  lemma {:induction false} Pow10Sum(a: nat, b: nat)
    ensures Pow10(a + b) == Pow10(a) * Pow10(b)
  {
    if a > 0 {
      Pow10Sum(a - 1, b);
      Associates(10, Pow10(a - 1), Pow10(b));
    }
  }

  /** Cutting digits off the end divides. */
  lemma {:induction false} PaddedPrefix(n: nat, k: nat, p: nat)
    requires p <= k
    ensures Pow10(k - p) > 0
    ensures Padded(n, k)[..p] == Padded(Quotient(n, Pow10(k - p)), p)
    decreases k - p
  {
    Pow10Positive(k - p);
    if p == k {
      assert Padded(n, k)[..p] == Padded(n, k);
    } else {
      PaddedPrefix(n / 10, k - 1, p);
      DivideTwice(n, 10, Pow10(k - 1 - p));
      assert Padded(n, k)[..p] == Padded(n / 10, k - 1)[..p];
    }
  }

  lemma {:induction false} ScaleIsPow10()
    ensures Pow10(DECIMALS) == SCALE
  {
    assert Pow10(6) == 1_000_000;
    Pow10Sum(6, 6);
    Pow10Sum(12, 6);
  }

  /** The unit of the last digit printed. */
  function Unit(precision: int): nat { Pow10(DECIMALS - Clamp(precision)) }

  /** x truncated toward zero to the printed digits. */
  function Truncated(x: int, precision: int): int {
    Pow10Positive(DECIMALS - Clamp(precision));
    Signed(Floor(Abs(x), Unit(precision)), x < 0)
  }

  lemma PaddedIsFraction(m: nat, p: nat)
    requires m < Pow10(p) && p <= DECIMALS
    ensures FractionOf(Padded(m, p)) == m * Pow10(DECIMALS - p)
  {
    PaddedDenotes(m, p);
  }

  /** A fraction has at most p digits above the unit. */
  lemma FractionDigits(fraction: nat, p: nat)
    requires fraction < SCALE && p <= DECIMALS
    ensures Pow10(DECIMALS - p) > 0 && Quotient(fraction, Pow10(DECIMALS - p)) < Pow10(p)
  {
    ScaleIsPow10();
    Pow10Positive(DECIMALS - p);
    Pow10Sum(p, DECIMALS - p);
    QuotientBelow(fraction, Pow10(p), Pow10(DECIMALS - p));
  }

  /** The fraction printed with p digits reads back as its multiple of the unit. */
  lemma FractionReadsBack(fraction: nat, p: nat)
    requires fraction < SCALE && p <= DECIMALS
    ensures Pow10(DECIMALS - p) > 0
    ensures FractionOf(Padded(fraction, DECIMALS)[..p]) == Floor(fraction, Pow10(DECIMALS - p))
  {
    FractionDigits(fraction, p);
    PaddedPrefix(fraction, DECIMALS, p);
    PaddedIsFraction(Quotient(fraction, Pow10(DECIMALS - p)), p);
  }

  /** A run of digits ends where a different character or the text's end is. */
  lemma {:induction false} RunEnds(before: string, run: string, after: string)
    requires AllDigits(run) && (after != "" ==> !IsDigit(after[0]))
    ensures DigitsEnd(before + run + after, |before|) == |before| + |run|
    decreases |run|
  {
    if run == "" {
      assert after != "" ==> (before + run + after)[|before|] == after[0];
    } else {
      assert before + run + after == (before + [run[0]]) + run[1..] + after;
      RunEnds(before + [run[0]], run[1..], after);
      assert (before + run + after)[|before|] == run[0];
    }
  }

  lemma Middle(a: string, b: string, c: string)
    ensures (a + b + c)[|a|..|a| + |b|] == b && (a + b + c)[|a| + |b|..] == c
    ensures b != "" ==> (a + b + c)[|a|] == b[0]
    ensures a + b + c == a + (b + c)
  {
  }

  predicate IsSign(s: string) { s == "" || s == "+" || s == "-" }

  lemma SignFound(sign: string, rest: string)
    requires IsSign(sign) && rest != "" && IsDigit(rest[0])
    ensures SignLength(sign + rest) == |sign| && ((sign + rest)[0] == '-' <==> sign == "-")
  {
  }

  /** Where the parser finds the integral digits. */
  lemma IntegralFound(sign: string, integral: string, rest: string)
    requires IsSign(sign) && AllDigits(integral) && integral != "" && (rest != "" ==> !IsDigit(rest[0]))
    ensures var text := sign + integral + rest; var e := |sign| + |integral|;
      && SignLength(text) == |sign| && IsDigit(text[|sign|]) && (text[0] == '-' <==> sign == "-")
      && DigitsEnd(text, |sign|) == e && text[|sign|..e] == integral && text[e..] == rest
  {
    Middle(sign, integral, rest);
    DigitFirst(integral, rest);
    SignFound(sign, integral + rest);
    RunEnds(sign, integral, rest);
  }

  lemma DigitFirst(integral: string, rest: string)
    requires AllDigits(integral) && integral != ""
    ensures integral + rest != "" && IsDigit((integral + rest)[0])
  {
  }

  /** What a sign and digits parse to. */
  lemma ParseOfInteger(sign: string, integral: string)
    requires IsSign(sign)
    requires AllDigits(integral) && integral != "" && NumberOf(integral) <= LARGEST
    ensures Parse(sign + integral) == Scaled(sign == "-", NumberOf(integral), 0)
  {
    var text := sign + integral;
    assert sign + integral + "" == text;
    IntegralFound(sign, integral, "");
    assert text[|sign|..|text|] == integral && DigitsEnd(text, SignLength(text)) == |text|;
  }

  /** What a sign, digits, a point and digits parse to. */
  lemma ParseOfParts(sign: string, integral: string, fraction: string)
    requires IsSign(sign)
    requires AllDigits(integral) && integral != "" && AllDigits(fraction) && NumberOf(integral) <= LARGEST
    ensures Parse(sign + integral + ("." + fraction)) == Scaled(sign == "-", NumberOf(integral), FractionOf(fraction))
  {
    IntegralFound(sign, integral, "." + fraction);
    PointFound(sign + integral, fraction);
  }

  /** Where the parser finds the point and the digits behind it. */
  lemma PointFound(before: string, fraction: string)
    requires AllDigits(fraction)
    ensures var text := before + ("." + fraction);
      && text[|before|] == '.' && DigitsEnd(text, |before| + 1) == |text| && text[|before| + 1..|text|] == fraction
  {
  }

  /** text is a sign, digits, and perhaps a point with digits. */
  ghost predicate IsDecimal(text: string, sign: string, integral: string, point: bool, fraction: string) {
    && IsSign(sign) && AllDigits(integral) && integral != "" && AllDigits(fraction) && (!point ==> fraction == "")
    && text == if point then sign + integral + ("." + fraction) else sign + integral
  }

  /** Its value, in units of 10^-18, decimals past the 18th cut off. */
  ghost function ValueOf(sign: string, integral: string, fraction: string): int
    requires AllDigits(integral) && AllDigits(fraction)
  {
    Signed(NumberOf(integral) * SCALE + FractionOf(fraction), sign == "-")
  }

  ghost predicate Denotes(text: string, raw: int) {
    exists sign, integral, point, fraction ::
      IsDecimal(text, sign, integral, point, fraction) && raw == ValueOf(sign, integral, fraction)
  }

  lemma DecimalParses(text: string, sign: string, integral: string, point: bool, fraction: string)
    requires IsDecimal(text, sign, integral, point, fraction) && Abs(ValueOf(sign, integral, fraction)) <= LARGEST
    ensures Parse(text) == Ok(ValueOf(sign, integral, fraction))
  {
    if point { ParseOfParts(sign, integral, fraction); } else { ParseOfInteger(sign, integral); }
  }

  lemma Cut(text: string, i: nat, e: nat)
    requires i < e <= |text|
    ensures text == text[..i] + text[i..e] + text[e..] && text[i..e] != "" && text[i..e][0] == text[i]
    ensures e == |text| ==> text == text[..i] + text[i..e]
  {
  }

  lemma ParsedIsDecimal(text: string)
    requires Parse(text).Ok?
    ensures Denotes(text, Parse(text).raw) && Abs(Parse(text).raw) <= LARGEST
  {
    var i := SignLength(text);
    var e := DigitsEnd(text, i);
    var sign, integral := text[..i], text[i..e];
    Cut(text, i, e);
    if e == |text| {
      assert FractionOf("") == 0;
      assert IsDecimal(text, sign, integral, false, "");
    } else {
      var fraction := text[e + 1..DigitsEnd(text, e + 1)];
      assert text[e..] == "." + fraction;
      assert IsDecimal(text, sign, integral, true, fraction);
    }
  }

  /** The parser accepts exactly the decimals whose magnitude fits, with the
      value they denote. */
  lemma AcceptsIff(text: string, raw: Int128)
    ensures Parse(text) == Ok(raw) <==> Denotes(text, raw) && Abs(raw) <= LARGEST
  {
    if Parse(text).Ok? { ParsedIsDecimal(text); }
    if Denotes(text, raw) && Abs(raw) <= LARGEST {
      var sign, integral, point, fraction :|
        IsDecimal(text, sign, integral, point, fraction) && raw == ValueOf(sign, integral, fraction);
      DecimalParses(text, sign, integral, point, fraction);
    }
  }

  lemma {:induction false} ZerosDenoteZero(k: nat)
    ensures AllDigits(Zeros(k)) && NumberOf(Zeros(k)) == 0
  {
    if k > 0 {
      ZerosDenoteZero(k - 1);
      assert Zeros(k)[..k - 1] == Zeros(k - 1);
    }
  }

  lemma FractionOfZeros(k: nat)
    requires k <= DECIMALS
    ensures AllDigits(Zeros(k)) && FractionOf(Zeros(k)) == 0
  {
    ZerosDenoteZero(k);
  }

  lemma ZeroReadsBack(precision: int)
    ensures Parse(Print(0, precision)) == Ok(0)
  {
    var p := Clamp(precision);
    assert NumberOf("0") == 0;
    if p == 0 {
      ParseOfInteger("", "0");
      assert "" + "0" == "0";
    } else {
      FractionOfZeros(p);
      ParseOfParts("", "0", Zeros(p));
      assert "" + "0" + ("." + Zeros(p)) == "0." + Zeros(p);
    }
  }

  lemma IntegerTextDenotes(n: nat)
    ensures NumberOf(IntegerText(n)) == n
  {
    DigitsDenote(n);
    assert NumberOf("0") == 0;
  }

  /** The printed text, with the point grouped with the fraction. */
  lemma PrintGrouped(x: Int128, p: nat)
    requires x != 0 && 0 < p <= DECIMALS
    ensures Print(x, p) ==
            (if x < 0 then "-" else "") + IntegerText(Abs(x) / SCALE) + ("." + Padded(Abs(x) % SCALE, DECIMALS)[..p])
  {
  }

  /** The printed text parses to the sum of its printed parts. */
  lemma PrintParses(x: Int128, p: nat)
    requires x != -TWO_127 && x != 0 && p <= DECIMALS
    ensures Parse(Print(x, p)) == Scaled(x < 0, Abs(x) / SCALE, FractionOf(Padded(Abs(x) % SCALE, DECIMALS)[..p]))
  {
    var sign, integral := if x < 0 then "-" else "", IntegerText(Abs(x) / SCALE);
    IntegerTextDenotes(Abs(x) / SCALE);
    QuotientShrinks(Abs(x), SCALE);
    if p == 0 {
      ParseOfInteger(sign, integral);
      assert Padded(Abs(x) % SCALE, DECIMALS)[..p] == "" && FractionOf("") == 0;
    } else {
      ParseOfParts(sign, integral, Padded(Abs(x) % SCALE, DECIMALS)[..p]);
      PrintGrouped(x, p);
    }
  }

  /** Print and parse: for every value but the smallest, at every precision, the
      text reads back as the value truncated toward zero to the printed digits,
      and no intermediate of the parser is too large. */
  lemma RoundTrip(x: Int128, precision: int)
    requires x != -TWO_127
    ensures Fits(Truncated(x, precision)) && Parse(Print(x, precision)) == Ok(Truncated(x, precision))
  {
    var p := Clamp(precision);
    if x == 0 {
      ZeroReadsBack(precision);
    } else {
      PrintParses(x, p);
      MagnitudeReadsBack(Abs(x), p);
      ScaledIsTruncated(x, precision, Abs(x) / SCALE, FractionOf(Padded(Abs(x) % SCALE, DECIMALS)[..p]));
    }
  }

  lemma ScaledIsTruncated(x: Int128, precision: int, integral: nat, fraction: nat)
    requires x != -TWO_127 && Unit(precision) > 0 && integral * SCALE + fraction == Floor(Abs(x), Unit(precision))
    ensures Fits(Truncated(x, precision)) && Scaled(x < 0, integral, fraction) == Ok(Truncated(x, precision))
  {
    FloorBounds(Abs(x), Unit(precision));
  }

  /** Integral and fraction, read back and put together. */
  lemma MagnitudeReadsBack(n: nat, p: nat)
    requires p <= DECIMALS
    ensures Pow10(DECIMALS - p) > 0
    ensures (n / SCALE) * SCALE + FractionOf(Padded(n % SCALE, DECIMALS)[..p]) == Floor(n, Pow10(DECIMALS - p))
  {
    ScaleIsPow10();
    Pow10Positive(p);
    Pow10Positive(DECIMALS - p);
    Pow10Sum(p, DECIMALS - p);
    FractionReadsBack(n % SCALE, p);
    FloorInParts(n, Pow10(p), Pow10(DECIMALS - p));
  }

  /** At 18 decimals nothing is lost, in either direction: text that parses
      prints back to the same value. */
  lemma FullPrecisionIsLossless(x: Int128)
    requires x != -TWO_127
    ensures Parse(Print(x, DECIMALS)) == Ok(x)
  {
    RoundTrip(x, DECIMALS);
    SurvivesIff(x, DECIMALS);
    assert Unit(DECIMALS) == 1;
  }

  /** Truncation keeps the order of values, not strictly. */
  lemma TruncationKeepsOrder(x: int, y: int, precision: int)
    requires x <= y
    ensures Truncated(x, precision) <= Truncated(y, precision)
  {
    Pow10Positive(DECIMALS - Clamp(precision));
    if x >= 0 { FloorGrows(x, y, Unit(precision)); }
    else if y < 0 { FloorGrows(-y, -x, Unit(precision)); }
  }

  /** A value survives the trip exactly when it has no digits past the printed
      ones. */
  lemma SurvivesIff(x: int, precision: int)
    ensures Pow10(DECIMALS - Clamp(precision)) > 0
    ensures Truncated(x, precision) == x <==> Abs(x) % Unit(precision) == 0
  {
    Pow10Positive(DECIMALS - Clamp(precision));
    FloorBounds(Abs(x), Unit(precision));
  }

  // ----- the printed layout ----------------------------------------------

  /** Digits without a leading zero, except for "0" itself. */
  predicate IsNumeral(s: string) { AllDigits(s) && s != "" && (|s| > 1 ==> s[0] != '0') }

  /** text is x cut to p decimals: a minus sign just for negative x, the integral
      part without leading zeros, and, if any decimals are asked for, a point and
      exactly p of them. */
  ghost predicate IsLayout(text: string, x: Int128, p: nat, integral: string, fraction: string)
    requires p <= DECIMALS
  {
    && IsNumeral(integral) && NumberOf(integral) == Abs(x) / SCALE
    && |fraction| == p && AllDigits(fraction) && FractionOf(fraction) == Truncated(Abs(x), p) % SCALE
    && text == (if x < 0 then "-" else "") + integral + (if p == 0 then "" else "." + fraction)
  }

  lemma {:induction false} DigitsIsNumeral(n: nat)
    requires n > 0
    ensures IsNumeral(Digits(n)) && Digits(n)[0] != '0'
  {
    if n >= 10 {
      DigitsIsNumeral(n / 10);
    } else {
      assert Digits(n / 10) == "" && Digits(n) == [DigitChar(n)];
      assert DigitOf('0') == 0;
    }
  }

  /** The decimals printed are the whole units' remainder. */
  lemma PrintedFraction(n: nat, p: nat)
    requires p <= DECIMALS
    ensures Truncated(n, p) >= 0 && FractionOf(Padded(n % SCALE, DECIMALS)[..p]) == Truncated(n, p) % SCALE
  {
    FractionReadsBack(n % SCALE, p);
    MagnitudeReadsBack(n, p);
    var f := FractionOf(Padded(n % SCALE, DECIMALS)[..p]);
    FloorBounds(n % SCALE, Pow10(DECIMALS - p));
    assert Truncated(n, p) == (n / SCALE) * SCALE + f && f < SCALE;
    DivModUnique(Truncated(n, p), SCALE, n / SCALE, f);
  }

  lemma ZeroHasLayout(p: nat)
    requires p <= DECIMALS
    ensures IsLayout(Print(0, p), 0, p, "0", Zeros(p))
  {
    FractionOfZeros(p);
    Pow10Positive(DECIMALS - p);
    FloorBounds(0, Pow10(DECIMALS - p));
    assert NumberOf("0") == 0 && Truncated(0, p) == 0;
    assert p > 0 ==> "" + "0" + ("." + Zeros(p)) == "0." + Zeros(p);
  }

  lemma NumberHasLayout(x: Int128, p: nat)
    requires x != -TWO_127 && x != 0 && p <= DECIMALS
    ensures IsLayout(Print(x, p), x, p, IntegerText(Abs(x) / SCALE), Padded(Abs(x) % SCALE, DECIMALS)[..p])
  {
    hide Padded, Truncated, FractionOf;
    PrintedFraction(Abs(x), p);
    IntegerTextDenotes(Abs(x) / SCALE);
    if Abs(x) / SCALE > 0 { DigitsIsNumeral(Abs(x) / SCALE); }
    if p > 0 { PrintGrouped(x, p); }
  }

  /** Every printed text has this layout. */
  lemma PrintHasLayout(x: Int128, precision: int)
    requires x != -TWO_127
    ensures exists integral, fraction :: IsLayout(Print(x, precision), x, Clamp(precision), integral, fraction)
  {
    assert Print(x, precision) == Print(x, Clamp(precision));
    if x == 0 { ZeroHasLayout(Clamp(precision)); } else { NumberHasLayout(x, Clamp(precision)); }
  }

  lemma SameDigit(c: char, d: char)
    requires IsDigit(c) && IsDigit(d) && DigitOf(c) == DigitOf(d)
    ensures c == d
  {
  }

  lemma LastDigit(q: nat, d: nat, r: nat, e: nat)
    requires q * 10 + d == r * 10 + e && d < 10 && e < 10
    ensures q == r && d == e
  {
  }

  lemma {:induction false} SameDigits(a: string, b: string)
    requires AllDigits(a) && AllDigits(b) && |a| == |b| && NumberOf(a) == NumberOf(b)
    ensures a == b
  {
    if a != "" {
      hide IsDigit, DigitOf;
      var n := |a| - 1;
      LastDigit(NumberOf(a[..n]), DigitOf(a[n]), NumberOf(b[..n]), DigitOf(b[n]));
      SameDigits(a[..n], b[..n]);
      SameDigit(a[n], b[n]);
      assert a == a[..n] + [a[n]] && b == b[..n] + [b[n]];
    }
  }

  lemma {:induction false} NumeralSize(s: string)
    requires AllDigits(s) && s != ""
    ensures NumberOf(s) < Pow10(|s|) && (s[0] != '0' ==> NumberOf(s) >= Pow10(|s| - 1))
  {
    if |s| > 1 {
      NumeralSize(s[..|s| - 1]);
    } else {
      assert s[..0] == "" && (s[0] != '0' ==> DigitOf(s[0]) > 0) && Pow10(0) == 1 && Pow10(1) == 10;
    }
  }

  lemma {:induction false} Pow10Grows(a: nat, b: nat)
    requires a <= b
    ensures Pow10(a) <= Pow10(b)
  {
    if a < b { Pow10Grows(a, b - 1); }
  }

  lemma NumeralsDiffer(a: string, b: string)
    requires IsNumeral(a) && IsNumeral(b) && |a| < |b|
    ensures NumberOf(a) < NumberOf(b)
  {
    NumeralSize(a);
    NumeralSize(b);
    Pow10Grows(|a|, |b| - 1);
  }

  lemma SameNumeral(a: string, b: string)
    requires IsNumeral(a) && IsNumeral(b) && NumberOf(a) == NumberOf(b)
    ensures a == b
  {
    if |a| < |b| { NumeralsDiffer(a, b); }
    else if |b| < |a| { NumeralsDiffer(b, a); }
    else { SameDigits(a, b); }
  }

  lemma SameFraction(a: string, b: string)
    requires AllDigits(a) && AllDigits(b) && |a| == |b| <= DECIMALS && FractionOf(a) == FractionOf(b)
    ensures a == b
  {
    var u := Pow10(DECIMALS - |a|);
    Pow10Positive(DECIMALS - |a|);
    ExactQuotient(NumberOf(a), u);
    ExactQuotient(NumberOf(b), u);
    SameDigits(a, b);
  }

  /** And it is the only text that has: the printer is determined by the layout. */
  lemma LayoutIsPrint(text: string, x: Int128, precision: int, integral: string, fraction: string)
    requires x != -TWO_127 && IsLayout(text, x, Clamp(precision), integral, fraction)
    ensures text == Print(x, precision)
  {
    hide FractionOf, NumberOf, Truncated, Print;
    PrintHasLayout(x, precision);
    var i, f :| IsLayout(Print(x, precision), x, Clamp(precision), i, f);
    SameNumeral(integral, i);
    SameFraction(fraction, f);
  }
}
