/**
 * Exact decimal strings: the canonical grammar, its reader and printer, and the shifted difference
 * and order built on them. Coefficients are unbounded, as JavaScript's `bigint` is.
 */
module Decimal {
  import opened Wrappers
  import opened Digits

  /** `coefficient / 10^scale`. */
  datatype Scaled = Scaled(coefficient: int, scale: nat)

  datatype Refusal = InvalidCanonicalDecimal | InvalidShift

  const MAX_SAFE_INTEGER: int := 9007199254740991

  function Number(d: Scaled): real {
    d.coefficient as real / Pow10(d.scale) as real
  }

  predicate IsNonzeroInteger(u: string) {
    u != "" && IsNonzeroDigit(u[0]) && AllDigits(u)
  }

  predicate IsTrimmedFraction(f: string) {
    f != "" && AllDigits(f) && IsNonzeroDigit(f[|f| - 1])
  }

  /** `[1-9][0-9]*(\.[0-9]*[1-9])?` or `0\.[0-9]*[1-9]`. */
  predicate IsCanonicalMagnitude(u: string) {
    var dot := IndexOf(u, '.');
    if dot == |u| then
      IsNonzeroInteger(u)
    else
      (u[..dot] == "0" || IsNonzeroInteger(u[..dot])) && IsTrimmedFraction(u[dot + 1..])
  }

  predicate IsCanonical(value: string) {
    value == "0" || IsCanonicalMagnitude(if value != "" && value[0] == '-' then value[1..] else value)
  }

  /** `[integer, fraction = ''] = text.split('.')`. */
  function SplitPoint(text: string): (parts: (string, string)) {
    var dot := IndexOf(text, '.');
    if dot == |text| then (text, "")
    else
      var rest := text[dot + 1..];
      (text[..dot], rest[..IndexOf(rest, '.')])
  }

  lemma NoDotAmongDigits(s: string)
    requires AllDigits(s)
    ensures IndexOf(s, '.') == |s|
  {
    var dot := IndexOf(s, '.');
    assert dot < |s| ==> s[dot] == '.';
  }

  /** The parts of a canonical magnitude are digit strings, and the text is those parts joined. */
  lemma SplitCanonical(u: string)
    requires u == "0" || IsCanonicalMagnitude(u)
    ensures var (integer, fraction) := SplitPoint(u);
      && AllDigits(integer) && AllDigits(fraction) && AllDigits(integer + fraction)
      && integer != ""
      && u == (if fraction == "" then integer else integer + "." + fraction)
      && (fraction != "" ==> IsTrimmedFraction(fraction))
      && (integer == "0" || IsNonzeroInteger(integer))
      && (u != "0" && fraction == "" ==> IsNonzeroInteger(integer))
  {
    var dot := IndexOf(u, '.');
    if dot < |u| {
      var fraction := u[dot + 1..];
      NoDotAmongDigits(fraction);
      assert fraction[..|fraction|] == fraction;
      assert u == u[..dot] + "." + fraction;
    }
  }

  function Parse(value: string): (r: Result<Scaled, Refusal>)
    ensures r.Success? <==> IsCanonical(value)
  {
    if !IsCanonical(value) then Failure(InvalidCanonicalDecimal)
    else
      var negative := value[0] == '-';
      var unsigned := if negative then value[1..] else value;
      var (integer, fraction) := SplitPoint(unsigned);
      SplitCanonical(unsigned);
      var coefficient: int := ValueOf(integer + fraction);
      Success(Scaled(if negative then -coefficient else coefficient, |fraction|))
  }

  /** The rational number a canonical string denotes. */
  ghost function Denotes(value: string): real
    requires IsCanonical(value)
  {
    Number(Parse(value).value)
  }

  // ----- printing

  /** The coefficient and scale left when trailing zeros below the point are divided away. */
  function Stripped(absolute: nat, scale: nat): (d: (nat, nat))
    decreases scale
  {
    if scale > 0 && absolute % 10 == 0 then Stripped(absolute / 10, scale - 1) else (absolute, scale)
  }

  lemma StrippedOfTrimmed(absolute: nat, scale: nat)
    requires scale > 0 ==> absolute % 10 != 0
    ensures Stripped(absolute, scale) == (absolute, scale)
  {
  }

  lemma StrippedStep(absolute: nat, scale: nat)
    requires scale > 0 && absolute % 10 == 0
    ensures Stripped(absolute, scale) == Stripped(absolute / 10, scale - 1)
  {
  }

  function Magnitude(absolute: nat, scale: nat): string {
    var digits := PadStart(ToDigits(absolute), scale + 1);
    PadStartLength(ToDigits(absolute), scale + 1);
    if scale == 0 then digits
    else digits[..|digits| - scale] + "." + digits[|digits| - scale..]
  }

  lemma PadStartLength(s: string, width: nat)
    ensures |PadStart(s, width)| >= width
  {
  }

  /** What the printer returns: "0", or a sign and a trimmed magnitude. */
  function Formatted(coefficient: int, scale: nat): string {
    if coefficient == 0 then "0"
    else
      var (absolute, left) := Stripped(if coefficient < 0 then -coefficient else coefficient, scale);
      (if coefficient < 0 then "-" else "+") + Magnitude(absolute, left)
  }

  method Format(coefficient: int, scale: nat) returns (text: string)
    ensures text == Formatted(coefficient, scale)
  {
    hide ToDigits, PadStart, Stripped;
    if coefficient == 0 {
      return "0";
    }
    var absolute: nat := if coefficient < 0 then -coefficient else coefficient;
    var left := scale;
    while left > 0 && absolute % 10 == 0
      invariant 0 <= left <= scale
      invariant Stripped(absolute, left) == Stripped(if coefficient < 0 then -coefficient else coefficient, scale)
      decreases left
    {
      StrippedStep(absolute, left);
      absolute := absolute / 10;
      left := left - 1;
    }
    StrippedOfTrimmed(absolute, left);
    var digits := PadStart(ToDigits(absolute), left + 1);
    PadStartLength(ToDigits(absolute), left + 1);
    var magnitude := if left == 0 then digits else digits[..|digits| - left] + "." + digits[|digits| - left..];
    return if coefficient < 0 then "-" + magnitude else "+" + magnitude;
  }

  function WithoutPlus(text: string): string {
    if text != "" && text[0] == '+' then text[1..] else text
  }

  /** A canonical string with its sign made explicit; zero stays bare. */
  function WithSign(value: string): string {
    if value == "0" || (value != "" && value[0] == '-') then value else "+" + value
  }

  // ----- arithmetic on the rational values

  lemma ProductIsReal(a: int, b: int)
    ensures (a * b) as real == a as real * b as real
  {
  }

  lemma QuotientIs(x: real, c: real, p: real)
    requires p > 0.0
    ensures x == c / p <==> x * p == c
  {
  }

  /** The number is the one real that its power of ten takes to the coefficient. */
  lemma NumberIs(d: Scaled, x: real)
    ensures x == Number(d) <==> x * Pow10(d.scale) as real == d.coefficient as real
  {
    QuotientIs(x, d.coefficient as real, Pow10(d.scale) as real);
  }

  lemma NumberTimesPower(coefficient: int, scale: nat, x: real)
    requires x == Number(Scaled(coefficient, scale))
    ensures x * Pow10(scale) as real == coefficient as real
  {
    NumberIs(Scaled(coefficient, scale), x);
  }

  lemma RealPowerSum(a: nat, b: nat)
    ensures Pow10(a + b) as real == Pow10(a) as real * Pow10(b) as real
  {
    Pow10Sum(a, b);
    ProductIsReal(Pow10(a), Pow10(b));
  }

  lemma Associate(x: real, p: real, q: real)
    ensures x * p * q == x * (p * q) == x * q * p
  {
  }

  lemma Cancel(x: real, y: real, p: real)
    requires p > 0.0
    ensures x * p == y * p <==> x == y
    ensures x * p < y * p <==> x < y
  {
  }

  lemma CrossMultiply(x: real, p: real, a: real, y: real, q: real, b: real)
    requires p > 0.0 && q > 0.0 && x * p == a && y * q == b
    ensures x == y <==> a * q == b * p
  {
    Associate(x, p, q);
    Associate(y, p, q);
    Cancel(x, y, p);
    Cancel(x * p, y * p, q);
  }

  lemma SameRatio(a: Scaled, b: Scaled)
    ensures Number(a) == Number(b) <==> a.coefficient * Pow10(b.scale) == b.coefficient * Pow10(a.scale)
  {
    var p, q := Pow10(a.scale), Pow10(b.scale);
    NumberIs(a, Number(a));
    NumberIs(b, Number(b));
    hide *;
    CrossMultiply(Number(a), p as real, a.coefficient as real, Number(b), q as real, b.coefficient as real);
    ProductIsReal(a.coefficient, q);
    ProductIsReal(b.coefficient, p);
  }

  /** Multiplying the coefficient and raising the scale together changes nothing. */
  lemma Rescale(d: Scaled, k: nat)
    ensures Number(Scaled(d.coefficient * Pow10(k), d.scale + k)) == Number(d)
  {
    hide *;
    var p, q := Pow10(d.scale) as real, Pow10(k) as real;
    NumberIs(d, Number(d));
    RealPowerSum(d.scale, k);
    Associate(Number(d), p, q);
    ProductIsReal(d.coefficient, Pow10(k));
    NumberIs(Scaled(d.coefficient * Pow10(k), d.scale + k), Number(d));
  }

  lemma {:induction false} StrippedKeepsNumber(absolute: nat, scale: nat)
    ensures var (a, s) := Stripped(absolute, scale);
      && Number(Scaled(a, s)) == Number(Scaled(absolute, scale))
      && s <= scale
      && (absolute > 0 ==> a > 0)
      && (s > 0 ==> a % 10 != 0)
    decreases scale
  {
    if scale > 0 && absolute % 10 == 0 {
      StrippedKeepsNumber(absolute / 10, scale - 1);
      Rescale(Scaled(absolute / 10, scale - 1), 1);
      assert Pow10(1) == 10;
      assert absolute / 10 * 10 == absolute;
    }
  }

  lemma NegatedNumber(c: int, s: nat)
    ensures Number(Scaled(-c, s)) == -Number(Scaled(c, s))
  {
    hide *;
    NumberIs(Scaled(c, s), Number(Scaled(c, s)));
    NumberIs(Scaled(-c, s), -Number(Scaled(c, s)));
  }

  // ----- the printer and the reader are inverse

  /** A trimmed coefficient prints as a canonical magnitude that splits back into its digits. */
  lemma MagnitudeIsCanonical(absolute: nat, scale: nat)
    requires absolute > 0 && (scale > 0 ==> absolute % 10 != 0)
    ensures IsCanonicalMagnitude(Magnitude(absolute, scale))
    ensures var (integer, fraction) := SplitPoint(Magnitude(absolute, scale));
      |fraction| == scale && AllDigits(integer + fraction) && ValueOf(integer + fraction) == absolute
  {
    hide *;
    if scale == 0 {
      WholeIsCanonical(absolute);
    } else {
      PaddedShape(absolute, scale);
      CutIsCanonical(PadStart(ToDigits(absolute), scale + 1), scale);
    }
  }

  lemma CutIsCanonical(digits: string, scale: nat)
    requires AllDigits(digits) && |digits| > scale > 0
    requires IsNonzeroDigit(digits[0]) || (|digits| == scale + 1 && digits[0] == '0')
    requires IsNonzeroDigit(digits[|digits| - 1])
    ensures var cut := |digits| - scale;
      var text := digits[..cut] + "." + digits[cut..];
      var (integer, fraction) := SplitPoint(text);
      && IsCanonicalMagnitude(text) && |fraction| == scale
      && AllDigits(integer + fraction) && ValueOf(integer + fraction) == ValueOf(digits)
  {
    hide *;
    var cut := |digits| - scale;
    PointedIsCanonical(digits, cut);
    assert digits[..cut] + digits[cut..] == digits;
  }

  lemma WholeIsCanonical(absolute: nat)
    requires absolute > 0
    ensures IsCanonicalMagnitude(Magnitude(absolute, 0))
    ensures var (integer, fraction) := SplitPoint(Magnitude(absolute, 0));
      fraction == "" && AllDigits(integer + fraction) && ValueOf(integer + fraction) == absolute
  {
    hide ToDigits, ValueOf;
    ToDigitsShape(absolute);
    PadStartShape(ToDigits(absolute), 1);
    NoDotAmongDigits(ToDigits(absolute));
    assert ToDigits(absolute) + "" == ToDigits(absolute);
  }

  /** The padded digits: long enough to be cut, a zero in front of the point if need be, no zero last. */
  lemma PaddedShape(absolute: nat, scale: nat)
    requires absolute > 0 && scale > 0 && absolute % 10 != 0
    ensures var digits := PadStart(ToDigits(absolute), scale + 1);
      && |digits| > scale && AllDigits(digits) && ValueOf(digits) == absolute
      && (IsNonzeroDigit(digits[0]) || (|digits| == scale + 1 && digits[0] == '0'))
      && IsNonzeroDigit(digits[|digits| - 1])
      && Magnitude(absolute, scale) == digits[..|digits| - scale] + "." + digits[|digits| - scale..]
  {
    hide ToDigits, ValueOf;
    ToDigitsShape(absolute);
    PadStartShape(ToDigits(absolute), scale + 1);
    var digits := PadStart(ToDigits(absolute), scale + 1);
    assert |ToDigits(absolute)| <= scale ==> digits[0] == '0';
    assert digits[|digits| - 1] == ToDigits(absolute)[|ToDigits(absolute)| - 1];
    assert DigitValue(digits[|digits| - 1]) > 0;
  }

  lemma PointedIsCanonical(digits: string, cut: nat)
    requires AllDigits(digits) && 0 < cut < |digits|
    requires IsNonzeroDigit(digits[0]) || (cut == 1 && digits[0] == '0')
    requires IsNonzeroDigit(digits[|digits| - 1])
    ensures IsCanonicalMagnitude(digits[..cut] + "." + digits[cut..])
    ensures SplitPoint(digits[..cut] + "." + digits[cut..]) == (digits[..cut], digits[cut..])
  {
    SplitJoined(digits[..cut], digits[cut..]);
    assert digits[cut..][|digits| - cut - 1] == digits[|digits| - 1];
  }

  /** Joining two digit strings with a point and splitting gives them back. */
  lemma SplitJoined(integer: string, fraction: string)
    requires AllDigits(integer) && AllDigits(fraction)
    ensures IndexOf(integer + "." + fraction, '.') == |integer|
    ensures (integer + "." + fraction)[..|integer|] == integer
    ensures (integer + "." + fraction)[|integer| + 1..] == fraction
    ensures SplitPoint(integer + "." + fraction) == (integer, fraction)
  {
    var u := integer + "." + fraction;
    var dot := IndexOf(u, '.');
    assert u[|integer|] == '.';
    assert !IsDigit(u[dot]);
    assert forall i :: 0 <= i < |integer| ==> IsDigit(u[i]);
    assert u[..|integer|] == integer;
    assert u[|integer| + 1..] == fraction;
    NoDotAmongDigits(fraction);
    assert fraction[..|fraction|] == fraction;
  }

  /** The digits of a magnitude's number, padded to the fraction and one more, are the magnitude's own. */
  lemma PaddedDigits(integer: string, fraction: string)
    requires AllDigits(fraction) && (IsNonzeroInteger(integer) || (integer == "0" && ValueOf(fraction) > 0))
    ensures AllDigits(integer + fraction) && ValueOf(integer + fraction) > 0
    ensures PadStart(ToDigits(ValueOf(integer + fraction)), |fraction| + 1) == integer + fraction
  {
    var all := integer + fraction;
    ToDigitsShape(ValueOf(all));
    if IsNonzeroInteger(integer) {
      assert all[0] == integer[0];
      LeadingDigitBound(all);
      ToDigitsOfValue(all);
    } else {
      PaddedFraction(fraction);
    }
  }

  lemma ZeroAhead(fraction: string)
    requires AllDigits(fraction)
    ensures AllDigits("0" + fraction) && ValueOf("0" + fraction) == ValueOf(fraction)
  {
    ValueOfConcat("0", fraction);
    assert ValueOf("0") == 0;
  }

  lemma PaddedFraction(fraction: string)
    requires AllDigits(fraction) && ValueOf(fraction) > 0
    ensures AllDigits("0" + fraction) && ValueOf("0" + fraction) == ValueOf(fraction)
    ensures PadStart(ToDigits(ValueOf(fraction)), |fraction| + 1) == "0" + fraction
  {
    var k, n := |fraction|, ValueOf(fraction);
    ZeroAhead(fraction);
    ToDigitsShape(n);
    ValueBelow(fraction);
    ToDigitsLength(n, k);
    PadStartShape(ToDigits(n), k + 1);
    hide *;
    ValueInjective(PadStart(ToDigits(n), k + 1), "0" + fraction);
  }

  /** Printing the digits of a canonical magnitude gives that magnitude back. */
  lemma CanonicalIsMagnitude(u: string)
    requires IsCanonicalMagnitude(u)
    ensures var (integer, fraction) := SplitPoint(u);
      && AllDigits(integer + fraction)
      && ValueOf(integer + fraction) > 0
      && (fraction != "" ==> ValueOf(integer + fraction) % 10 != 0)
      && Magnitude(ValueOf(integer + fraction), |fraction|) == u
  {
    SplitCanonical(u);
    var (integer, fraction) := SplitPoint(u);
    var all, k := integer + fraction, |fraction|;
    if fraction != "" {
      assert all[|all| - 1] == fraction[k - 1];
      TrimmedIsPositive(fraction);
    }
    PaddedDigits(integer, fraction);
    hide ToDigits, PadStart, SplitPoint;
    assert all[..|all| - k] == integer;
    assert all[|all| - k..] == fraction;
  }

  lemma TrimmedIsPositive(fraction: string)
    requires AllDigits(fraction) && fraction != "" && IsNonzeroDigit(fraction[|fraction| - 1])
    ensures ValueOf(fraction) > 0
  {
  }

  lemma ZeroReads()
    ensures IsCanonical("0") && Parse("0").value == Scaled(0, 0) && Denotes("0") == 0.0
  {
    SplitCanonical("0");
    assert SplitPoint("0") == ("0", "");
    assert "0" + "" == "0";
  }

  /** A signed trimmed magnitude reads as its coefficient. */
  lemma SignedMagnitudeReads(negative: bool, absolute: int, scale: nat)
    requires absolute > 0 && (scale > 0 ==> absolute % 10 != 0)
    ensures var text := (if negative then "-" else "") + Magnitude(absolute, scale);
      && IsCanonical(text) && text != "0" && text != "" && text[0] != '+'
      && (negative <==> text[0] == '-')
      && Parse(text).value == Scaled(if negative then -absolute else absolute, scale)
  {
    MagnitudeIsCanonical(absolute, scale);
    var u := Magnitude(absolute, scale);
    CanonicalStart(u);
    var text := (if negative then "-" else "") + u;
    if negative {
      assert text[1..] == u;
    } else {
      assert text == u;
    }
  }

  /**
   * Every output of the printer, without a leading plus, is accepted by the grammar and reads back
   * as the number that was printed; the sign shown is the number's own.
   */
  lemma FormatReadsBack(coefficient: int, scale: nat)
    ensures IsCanonical(WithoutPlus(Formatted(coefficient, scale)))
    ensures Denotes(WithoutPlus(Formatted(coefficient, scale))) == Number(Scaled(coefficient, scale))
    ensures WithSign(WithoutPlus(Formatted(coefficient, scale))) == Formatted(coefficient, scale)
    ensures coefficient < 0 <==> Formatted(coefficient, scale)[0] == '-'
    ensures coefficient > 0 <==> Formatted(coefficient, scale)[0] == '+'
  {
    hide Magnitude, Parse, IsCanonical;
    if coefficient == 0 {
      ZeroReads();
      assert Number(Scaled(0, scale)) == 0.0;
    } else {
      var negative := coefficient < 0;
      var size: nat := if negative then -coefficient else coefficient;
      var (absolute, left) := Stripped(size, scale);
      StrippedKeepsNumber(size, scale);
      SignedMagnitudeReads(negative, absolute, left);
      NegatedNumber(size, scale);
      NegatedNumber(absolute, left);
      var text := (if negative then "-" else "") + Magnitude(absolute, left);
      if !negative {
        assert text == Magnitude(absolute, left);
        assert Formatted(coefficient, scale)[1..] == text;
      }
    }
  }

  /** A canonical magnitude begins with a digit, so it carries no sign. */
  lemma CanonicalStart(u: string)
    requires IsCanonicalMagnitude(u)
    ensures u != "" && IsDigit(u[0]) && u != "0"
  {
    SplitCanonical(u);
    var (integer, fraction) := SplitPoint(u);
    assert u[0] == integer[0];
    assert IndexOf("0", '.') == 1;
  }

  /** Printing what was read gives the same string with its sign made explicit. */
  lemma ReadFormatsBack(value: string)
    requires IsCanonical(value)
    ensures var d := Parse(value).value; Formatted(d.coefficient, d.scale) == WithSign(value)
  {
    if value == "0" {
      SplitCanonical("0");
      assert SplitPoint("0") == ("0", "");
      assert "0" + "" == "0";
    } else {
      var negative := value[0] == '-';
      var u := if negative then value[1..] else value;
      CanonicalStart(u);
      CanonicalIsMagnitude(u);
      var (integer, fraction) := SplitPoint(u);
      StrippedOfTrimmed(ValueOf(integer + fraction), |fraction|);
      if negative {
        assert value == "-" + u;
      }
    }
  }

  lemma FormatDropsZero(coefficient: int, scale: nat)
    ensures Formatted(coefficient * 10, scale + 1) == Formatted(coefficient, scale)
  {
    var size: nat := if coefficient < 0 then -coefficient else coefficient;
    assert size * 10 % 10 == 0 && size * 10 / 10 == size;
    assert Stripped(size * 10, scale + 1) == Stripped(size, scale);
  }

  lemma TimesTen(c: int, p: int)
    ensures c * (10 * p) == c * p * 10
  {
  }

  lemma NextPower(c: int, k: nat)
    requires k > 0
    ensures c * Pow10(k) == c * Pow10(k - 1) * 10
  {
    assert Pow10(k) == 10 * Pow10(k - 1);
    hide *;
    TimesTen(c, Pow10(k - 1));
  }

  lemma NoPower(c: int)
    ensures c * Pow10(0) == c
  {
    assert Pow10(0) == 1;
  }

  lemma {:induction false} FormatIgnoresTrailingZeros(coefficient: int, scale: nat, k: nat)
    ensures Formatted(coefficient * Pow10(k), scale + k) == Formatted(coefficient, scale)
    decreases k
  {
    hide *;
    if k > 0 {
      FormatIgnoresTrailingZeros(coefficient, scale, k - 1);
      NextPower(coefficient, k);
      FormatDropsZero(coefficient * Pow10(k - 1), scale + k - 1);
    } else {
      NoPower(coefficient);
    }
  }

  /** The printed text depends on the number alone, not on the coefficient and scale that carry it. */
  lemma FormatDependsOnNumber(a: Scaled, b: Scaled)
    requires Number(a) == Number(b)
    ensures Formatted(a.coefficient, a.scale) == Formatted(b.coefficient, b.scale)
  {
    SameRatio(a, b);
    FormatIgnoresTrailingZeros(a.coefficient, a.scale, b.scale);
    FormatIgnoresTrailingZeros(b.coefficient, b.scale, a.scale);
  }

  /** Two accepted strings that denote one number are one string. */
  lemma CanonicalIsUnique(v: string, w: string)
    requires IsCanonical(v) && IsCanonical(w)
    ensures Denotes(v) == Denotes(w) <==> v == w
  {
    if Denotes(v) == Denotes(w) {
      FormatDependsOnNumber(Parse(v).value, Parse(w).value);
      ReadFormatsBack(v);
      ReadFormatsBack(w);
      WithSignInjective(v, w);
    }
  }

  lemma WithSignInjective(v: string, w: string)
    requires IsCanonical(v) && IsCanonical(w) && WithSign(v) == WithSign(w)
    ensures v == w
  {
    assert WithoutPlus(WithSign(v)) == v by { NoPlus(v); }
    assert WithoutPlus(WithSign(w)) == w by { NoPlus(w); }
  }

  lemma NoPlus(v: string)
    requires IsCanonical(v)
    ensures v != "" && v[0] != '+'
  {
    if v != "0" {
      CanonicalStart(if v != "" && v[0] == '-' then v[1..] else v);
    }
  }

  // ----- exact difference

  predicate IsShift(decimalShift: int) { 0 <= decimalShift <= MAX_SAFE_INTEGER }

  function Max(a: nat, b: nat): nat { if a < b then b else a }

  /** The coefficient brought to a larger scale. */
  function Lifted(d: Scaled, scale: nat): int
    requires d.scale <= scale
  {
    d.coefficient * Pow10(scale - d.scale)
  }

  /** The difference before the shift is applied, over the larger of the two scales. */
  function Difference(left: Scaled, right: Scaled): Scaled {
    var scale := Max(left.scale, right.scale);
    Scaled(Lifted(right, scale) - Lifted(left, scale), scale)
  }

  function Shifted(d: Scaled, k: nat): Scaled {
    if k > d.scale then Scaled(Lifted(d, k), 0) else Scaled(d.coefficient, d.scale - k)
  }

  function Delta(before: string, after: string, decimalShift: int): (r: Result<string, Refusal>) {
    if !IsShift(decimalShift) then Failure(InvalidShift)
    else if !IsCanonical(before) || !IsCanonical(after) then Failure(InvalidCanonicalDecimal)
    else
      var d := Shifted(Difference(Parse(before).value, Parse(after).value), decimalShift);
      Success(Formatted(d.coefficient, d.scale))
  }

  method ExactDelta(before: string, after: string, decimalShift: int := 0) returns (r: Result<string, Refusal>)
    ensures r == Delta(before, after, decimalShift)
  {
    if decimalShift < 0 || decimalShift > MAX_SAFE_INTEGER {
      return Failure(InvalidShift);
    }
    var left, right := Parse(before), Parse(after);
    if left.Failure? {
      return Failure(left.error);
    }
    if right.Failure? {
      return Failure(right.error);
    }
    hide Formatted, Shifted, Difference, Parse, IsCanonical;
    var text := PrintDifference(left.value, right.value, decimalShift);
    return Success(text);
  }

  /** The rest of it, once both texts are read. */
  method PrintDifference(left: Scaled, right: Scaled, decimalShift: nat) returns (text: string)
    ensures var d := Shifted(Difference(left, right), decimalShift); text == Formatted(d.coefficient, d.scale)
  {
    hide Pow10, Formatted, Lifted;
    var scale := Max(left.scale, right.scale);
    var difference := Lifted(right, scale) - Lifted(left, scale);
    if decimalShift > scale {
      difference := Lifted(Scaled(difference, scale), decimalShift);
      scale := 0;
    } else {
      scale := scale - decimalShift;
    }
    text := Format(difference, scale);
  }

  lemma LiftedNumber(d: Scaled, scale: nat)
    requires d.scale <= scale
    ensures Number(d) * Pow10(scale) as real == Lifted(d, scale) as real
  {
    hide *;
    LiftedKeepsNumber(d, scale);
    NumberTimesPower(Lifted(d, scale), scale, Number(d));
  }

  lemma LiftedKeepsNumber(d: Scaled, scale: nat)
    requires d.scale <= scale
    ensures Number(Scaled(Lifted(d, scale), scale)) == Number(d)
  {
    var k := scale - d.scale;
    assert Lifted(d, scale) == d.coefficient * Pow10(k);
    hide *;
    Rescale(d, k);
    assert d.scale + k == scale;
  }

  lemma Distribute(x: real, y: real, p: real)
    ensures (y - x) * p == y * p - x * p
  {
  }

  lemma DifferenceIsExact(left: Scaled, right: Scaled)
    ensures Number(Difference(left, right)) == Number(right) - Number(left)
  {
    var scale := Max(left.scale, right.scale);
    var d := Difference(left, right);
    assert left.scale <= scale && right.scale <= scale;
    assert d == Scaled(Lifted(right, scale) - Lifted(left, scale), scale);
    hide *;
    LiftedNumber(left, scale);
    LiftedNumber(right, scale);
    Distribute(Number(left), Number(right), Pow10(scale) as real);
    NumberIs(d, Number(right) - Number(left));
  }

  lemma WholeNumber(c: int)
    ensures Number(Scaled(c, 0)) == c as real
  {
    assert Pow10(0) == 1;
  }

  lemma ShiftBeyondScale(d: Scaled, k: nat)
    requires k > d.scale
    ensures Number(Shifted(d, k)) == Number(d) * Pow10(k) as real
  {
    LiftedNumber(d, k);
    WholeNumber(Lifted(d, k));
    assert Shifted(d, k) == Scaled(Lifted(d, k), 0);
    hide *;
  }

  lemma TenTimes(c: int, scale: nat)
    requires scale > 0
    ensures Number(Scaled(c, scale - 1)) == 10.0 * Number(Scaled(c, scale))
  {
    var x := Number(Scaled(c, scale));
    NumberIs(Scaled(c, scale), x);
    assert Pow10(scale) == 10 * Pow10(scale - 1);
    hide *;
    NumberIs(Scaled(c, scale - 1), 10.0 * x);
  }

  lemma {:induction false} ShiftWithinScale(d: Scaled, k: nat)
    requires k <= d.scale
    ensures Number(Shifted(d, k)) == Number(d) * Pow10(k) as real
    decreases k
  {
    assert Shifted(d, k) == Scaled(d.coefficient, d.scale - k);
    if k > 0 {
      ShiftWithinScale(d, k - 1);
      TenTimes(d.coefficient, d.scale - k + 1);
      assert Shifted(d, k - 1) == Scaled(d.coefficient, d.scale - k + 1);
      assert Pow10(k) as real == 10.0 * Pow10(k - 1) as real;
      hide *;
    } else {
      assert Pow10(0) == 1;
      hide *;
    }
  }

  lemma ShiftIsExact(d: Scaled, k: nat)
    ensures Number(Shifted(d, k)) == Number(d) * Pow10(k) as real
  {
    hide *;
    if k > d.scale {
      ShiftBeyondScale(d, k);
    } else {
      ShiftWithinScale(d, k);
    }
  }

  /**
   * On canonical inputs and a legal shift the difference is printed canonically and denotes exactly
   * (after - before) * 10^shift, whatever the scales and however far the shift goes; every other
   * call is refused.
   */
  lemma DeltaIsExact(before: string, after: string, decimalShift: int)
    ensures Delta(before, after, decimalShift).Success?
      <==> IsShift(decimalShift) && IsCanonical(before) && IsCanonical(after)
    ensures !IsShift(decimalShift) ==> Delta(before, after, decimalShift) == Failure(InvalidShift)
    ensures Delta(before, after, decimalShift).Success? ==>
      var text := Delta(before, after, decimalShift).value;
      && IsCanonical(WithoutPlus(text))
      && WithSign(WithoutPlus(text)) == text
      && Denotes(WithoutPlus(text)) == (Denotes(after) - Denotes(before)) * Pow10(decimalShift) as real
  {
    hide Shifted, Difference, Formatted, IsCanonical, WithSign, WithoutPlus, Number, Pow10;
    if Delta(before, after, decimalShift).Success? {
      var left, right := Parse(before).value, Parse(after).value;
      var d := Shifted(Difference(left, right), decimalShift);
      DifferenceIsExact(left, right);
      ShiftIsExact(Difference(left, right), decimalShift);
      FormatReadsBack(d.coefficient, d.scale);
    }
  }

  /** Consecutive differences add up to the whole difference, at every shift. */
  lemma DeltasTelescope(a: string, b: string, c: string, k: int)
    requires IsCanonical(a) && IsCanonical(b) && IsCanonical(c) && IsShift(k)
    ensures Delta(a, b, k).Success? && Delta(b, c, k).Success? && Delta(a, c, k).Success?
    ensures IsCanonical(WithoutPlus(Delta(a, b, k).value)) && IsCanonical(WithoutPlus(Delta(b, c, k).value))
    ensures IsCanonical(WithoutPlus(Delta(a, c, k).value))
    ensures Denotes(WithoutPlus(Delta(a, c, k).value))
      == Denotes(WithoutPlus(Delta(a, b, k).value)) + Denotes(WithoutPlus(Delta(b, c, k).value))
  {
    DeltaIsExact(a, b, k);
    DeltaIsExact(b, c, k);
    DeltaIsExact(a, c, k);
    var x, y, z, p := Denotes(a), Denotes(b), Denotes(c), Pow10(k) as real;
    assert (z - x) * p == (y - x) * p + (z - y) * p;
  }

  /** Exchanging the operands exchanges the sign character and changes nothing else. */
  lemma DeltaIsAntisymmetric(a: string, b: string, k: int)
    requires IsCanonical(a) && IsCanonical(b) && IsShift(k)
    ensures Delta(a, b, k).Success? && Delta(b, a, k).Success?
    ensures var forth, back := Delta(a, b, k).value, Delta(b, a, k).value;
      if a == b then forth == "0" && back == "0"
      else forth != "" && back != "" && {forth[0], back[0]} == {'+', '-'} && forth[1..] == back[1..]
  {
    hide Shifted, Difference, Formatted, IsCanonical, Parse;
    var left, right := Parse(a).value, Parse(b).value;
    DifferenceNegates(left, right);
    var d := Shifted(Difference(left, right), k);
    ShiftedNegates(Difference(left, right), k);
    FormatNegates(d.coefficient, d.scale);
    ZeroDelta(a, b, k);
  }

  /** The difference is zero exactly between a text and itself. */
  lemma ZeroDelta(a: string, b: string, k: nat)
    requires IsCanonical(a) && IsCanonical(b)
    ensures Shifted(Difference(Parse(a).value, Parse(b).value), k).coefficient == 0 <==> a == b
  {
    hide Number, Pow10, Parse, Shifted, Difference, IsCanonical;
    var left, right := Parse(a).value, Parse(b).value;
    assert Denotes(a) == Number(left) && Denotes(b) == Number(right);
    hide *;
    var d := Shifted(Difference(left, right), k);
    CanonicalIsUnique(a, b);
    DifferenceIsExact(left, right);
    ShiftIsExact(Difference(left, right), k);
    NumberSign(d);
    ZeroProduct(Denotes(b) - Denotes(a), Pow10(k) as real);
  }

  lemma DifferenceNegates(left: Scaled, right: Scaled)
    ensures Difference(right, left) == Scaled(-Difference(left, right).coefficient, Difference(left, right).scale)
  {
  }

  lemma ShiftedNegates(d: Scaled, k: nat)
    ensures Shifted(Scaled(-d.coefficient, d.scale), k) ==
      Scaled(-Shifted(d, k).coefficient, Shifted(d, k).scale)
  {
    if k > d.scale {
      NegatedProduct(d.coefficient, Pow10(k - d.scale));
    }
  }

  lemma NegatedProduct(c: int, p: int)
    ensures -c * p == -(c * p)
  {
  }

  lemma FormatNegates(coefficient: int, scale: nat)
    ensures var forth, back := Formatted(coefficient, scale), Formatted(-coefficient, scale);
      if coefficient == 0 then forth == back == "0"
      else forth != "" && back != "" && {forth[0], back[0]} == {'+', '-'} && forth[1..] == back[1..]
  {
    hide Magnitude;
  }

  /** The numerator's sign is the number's sign. */
  lemma NumberSign(d: Scaled)
    ensures d.coefficient == 0 <==> Number(d) == 0.0
    ensures d.coefficient > 0 <==> Number(d) > 0.0
  {
    hide *;
    NumberIs(d, Number(d));
    ZeroProduct(Number(d), Pow10(d.scale) as real);
  }

  lemma ZeroProduct(x: real, p: real)
    requires p > 0.0
    ensures x * p == 0.0 <==> x == 0.0
    ensures x * p > 0.0 <==> x > 0.0
  {
  }

  /** The shift is looked at first, then the two texts; nothing else is refused. */
  lemma DeltaRefusedExactly(before: string, after: string, decimalShift: int)
    ensures Delta(before, after, decimalShift) == Failure(InvalidShift)
      <==> decimalShift < 0 || decimalShift > 9007199254740991
    ensures Delta(before, after, decimalShift) == Failure(InvalidCanonicalDecimal)
      <==> 0 <= decimalShift <= 9007199254740991 && !(IsCanonical(before) && IsCanonical(after))
  {
    hide Shifted, Difference, Formatted, IsCanonical;
  }

  /** The canonical strings are what the printer prints, a plus in front left out. */
  lemma CanonicalIsPrinted(value: string)
    ensures IsCanonical(value) <==> exists coefficient, scale :: value == WithoutPlus(Formatted(coefficient, scale))
  {
    hide IsCanonical, Formatted, Parse, WithSign, WithoutPlus;
    if IsCanonical(value) {
      ReadFormatsBack(value);
      PlusIsLeftOut(value);
      var d := Parse(value).value;
      assert value == WithoutPlus(Formatted(d.coefficient, d.scale));
    }
    if coefficient, scale: nat :| value == WithoutPlus(Formatted(coefficient, scale)) {
      FormatReadsBack(coefficient, scale);
    }
  }

  lemma PlusIsLeftOut(value: string)
    requires IsCanonical(value)
    ensures WithoutPlus(WithSign(value)) == value
  {
    NoPlus(value);
  }

  // ----- order

  /** -1, 0 or 1 after both coefficients are brought to the larger scale. */
  function CompareCanonicalDecimal(leftValue: string, rightValue: string): (r: Result<int, Refusal>)
    ensures r.Success? <==> IsCanonical(leftValue) && IsCanonical(rightValue)
  {
    var left, right := Parse(leftValue), Parse(rightValue);
    if left.Failure? then Failure(left.error)
    else if right.Failure? then Failure(right.error)
    else
      var scale := Max(left.value.scale, right.value.scale);
      var leftCoefficient := Lifted(left.value, scale);
      var rightCoefficient := Lifted(right.value, scale);
      Success(if leftCoefficient < rightCoefficient then -1 else if leftCoefficient > rightCoefficient then 1 else 0)
  }

  /** The comparison is the order of the numbers denoted, and ties only on identical strings. */
  lemma CompareIsNumericOrder(v: string, w: string)
    requires IsCanonical(v) && IsCanonical(w)
    ensures var r := CompareCanonicalDecimal(v, w).value;
      && (r == -1 <==> Denotes(v) < Denotes(w))
      && (r == 1 <==> Denotes(v) > Denotes(w))
      && (r == 0 <==> v == w)
      && CompareCanonicalDecimal(w, v).value == -r
  {
    var left, right := Parse(v).value, Parse(w).value;
    hide IsCanonical, Pow10, Lifted, Number;
    CanonicalIsUnique(v, w);
    LiftedOrder(left, right, Max(left.scale, right.scale));
  }

  /** At a common scale the coefficients are ordered as the numbers are. */
  lemma LiftedOrder(a: Scaled, b: Scaled, scale: nat)
    requires a.scale <= scale && b.scale <= scale
    ensures Lifted(a, scale) < Lifted(b, scale) <==> Number(a) < Number(b)
    ensures Lifted(a, scale) > Lifted(b, scale) <==> Number(a) > Number(b)
  {
    hide *;
    LiftedNumber(a, scale);
    LiftedNumber(b, scale);
    ProductOrder(Number(a), Number(b), Pow10(scale) as real, Lifted(a, scale), Lifted(b, scale));
  }

  lemma ProductOrder(x: real, y: real, p: real, a: int, b: int)
    requires p > 0.0 && x * p == a as real && y * p == b as real
    ensures a < b <==> x < y
    ensures a > b <==> x > y
  {
    Cancel(x, y, p);
    Cancel(y, x, p);
  }

  /** The order is transitive, hence with totality and antisymmetry a total order on canonical strings. */
  lemma CompareIsTransitive(u: string, v: string, w: string)
    requires IsCanonical(u) && IsCanonical(v) && IsCanonical(w)
    requires CompareCanonicalDecimal(u, v).value <= 0 && CompareCanonicalDecimal(v, w).value <= 0
    ensures CompareCanonicalDecimal(u, w).value <= 0
    ensures CompareCanonicalDecimal(u, w).value == 0 ==> u == v == w
  {
    CompareIsNumericOrder(u, v);
    CompareIsNumericOrder(v, w);
    CompareIsNumericOrder(u, w);
    CanonicalIsUnique(u, v);
    CanonicalIsUnique(v, w);
  }

  lemma DeltaText(v: string, w: string, k: int)
    requires IsCanonical(v) && IsCanonical(w) && IsShift(k)
    ensures var d := Shifted(Difference(Parse(v).value, Parse(w).value), k);
      Delta(v, w, k) == Success(Formatted(d.coefficient, d.scale))
  {
    hide Shifted, Difference, Formatted, Parse, IsCanonical, Pow10;
  }

  /** The sign character of the difference is the order's verdict. */
  lemma CompareAgreesWithDelta(v: string, w: string, k: int)
    requires IsCanonical(v) && IsCanonical(w) && IsShift(k)
    ensures Delta(v, w, k).Success?
    ensures var r, text := CompareCanonicalDecimal(v, w).value, Delta(v, w, k).value;
      && (r == -1 <==> text[0] == '+')
      && (r == 1 <==> text[0] == '-')
      && (r == 0 <==> text == "0")
  {
    hide Shifted, Difference, Formatted, Parse, IsCanonical, Pow10, Number, CompareCanonicalDecimal, Delta;
    var left, right := Parse(v).value, Parse(w).value;
    var d := Shifted(Difference(left, right), k);
    DeltaText(v, w, k);
    CompareIsNumericOrder(v, w);
    DifferenceIsExact(left, right);
    ShiftIsExact(Difference(left, right), k);
    FormatSign(d.coefficient, d.scale);
    NumberSign(d);
    ProductSign(Number(d), Number(right), Number(left), Pow10(k) as real);
    CanonicalIsUnique(v, w);
  }

  lemma ProductSign(n: real, x: real, y: real, p: real)
    requires p > 0.0 && n == (x - y) * p
    ensures n > 0.0 <==> x > y
    ensures n == 0.0 <==> x == y
  {
    ZeroProduct(x - y, p);
  }

  lemma FormatSign(coefficient: int, scale: nat)
    ensures var text := Formatted(coefficient, scale);
      && text != ""
      && (coefficient > 0 <==> text[0] == '+')
      && (coefficient < 0 <==> text[0] == '-')
      && (coefficient == 0 <==> text == "0")
  {
    hide Magnitude;
  }

  // ----- percent

  function Percent(value: string): (r: Result<string, Refusal>) {
    match Delta("0", value, 2)
    case Failure(error) => Failure(error)
    case Success(text) => Success(WithoutPlus(text) + "%")
  }

  /** The percent text of a canonical value is the canonical string denoting 100 times it, then "%". */
  lemma PercentIsExact(value: string)
    ensures Percent(value).Success? <==> IsCanonical(value)
    ensures IsCanonical(value) ==>
      var text := Percent(value).value;
      && text != "" && text[|text| - 1] == '%'
      && IsCanonical(text[..|text| - 1])
      && Denotes(text[..|text| - 1]) == 100.0 * Denotes(value)
  {
    ZeroReads();
    DeltaIsExact("0", value, 2);
    hide Delta, Parse, IsCanonical;
    if IsCanonical(value) {
      var text := WithoutPlus(Delta("0", value, 2).value);
      assert (text + "%")[..|text|] == text;
      assert Pow10(2) == 100 by { assert Pow10(1) == 10; }
    }
  }
}
