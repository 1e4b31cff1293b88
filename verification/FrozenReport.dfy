/**
 * Display rounding of a frozen report's figures. The exact strings stay available beside it; this
 * is presentation only, yet it must show the right rounding after looking at a single extra digit.
 */
module FrozenReport {
  import opened Wrappers
  import opened Digits
  import opened Decimal

  function WithoutSign(value: string): string {
    if value != "" && (value[0] == '+' || value[0] == '-') then value[1..] else value
  }

  /** An optional sign, digits, and optionally a point with more digits; either run may be empty. */
  predicate IsNumeral(value: string) {
    var (integer, fraction) := SplitPoint(WithoutSign(value));
    && AllDigits(integer) && AllDigits(fraction)
    && (WithoutSign(value) == integer || WithoutSign(value) == integer + "." + fraction)
  }

  lemma DigitsJoin(a: string, b: string)
    requires AllDigits(a) && AllDigits(b)
    ensures AllDigits(a + b)
  {
  }

  /** The unsigned number a numeral denotes. */
  function Size(value: string): Scaled
    requires IsNumeral(value)
  {
    var (integer, fraction) := SplitPoint(WithoutSign(value));
    DigitsJoin(integer, fraction);
    Scaled(ValueOf(integer + fraction), |fraction|)
  }

  predicate HasNonzeroDigit(value: string) { exists i :: 0 <= i < |value| && IsNonzeroDigit(value[i]) }

  function PadEnd(s: string, width: nat): string {
    if |s| >= width then s else s + Zeros(width - |s|)
  }

  function Cut(fraction: string, places: nat): string {
    if |fraction| <= places then fraction else fraction[..places]
  }

  lemma CutIsDigits(fraction: string, places: nat)
    requires AllDigits(fraction)
    ensures AllDigits(PadEnd(Cut(fraction, places), places))
  {
  }

  function Appended(high: nat, width: nat, low: nat): nat { high * Pow10(width) + low }

  lemma AppendedDigits(a: string, b: string)
    requires AllDigits(a) && AllDigits(b)
    ensures AllDigits(a + b) && ValueOf(a + b) == Appended(ValueOf(a), |b|, ValueOf(b))
  {
    ValueOfConcat(a, b);
  }

  function RoundedDigits(integer: string, fraction: string, places: nat): nat
    requires AllDigits(integer) && AllDigits(fraction)
  {
    CutIsDigits(fraction, places);
    var kept := Appended(ValueOf(integer), places, ValueOf(PadEnd(Cut(fraction, places), places)));
    if |fraction| > places && DigitValue(fraction[places]) >= 5 then kept + 1 else kept
  }

  /** The magnitude in units of 10^-places, rounded as the display rounds it. */
  function Rounded(value: string, places: nat): nat
    requires IsNumeral(value)
  {
    var (integer, fraction) := SplitPoint(WithoutSign(value));
    RoundedDigits(integer, fraction, places)
  }

  function SignText(value: string): string {
    if value != "" && value[0] == '-' then "\U{2212}" else ""
  }

  /** The text that says "not zero, but below what these places can show". */
  function BelowResolution(places: nat): string
    requires places >= 1
  {
    "<0." + Zeros(places - 1) + "1"
  }

  function DisplayDecimal(value: string, places: nat): string
    requires IsNumeral(value) && places >= 1
  {
    var rounded := Rounded(value, places);
    if rounded == 0 && HasNonzeroDigit(value) then SignText(value) + BelowResolution(places)
    else
      var digits := PadStart(ToDigits(rounded), places + 1);
      PadStartLength(ToDigits(rounded), places + 1);
      SignText(value) + digits[..|digits| - places] + "." + digits[|digits| - places..]
  }

  // ----- rounding

  /** A number measured in units of 10^-places. */
  ghost function InUnits(x: real, places: nat): real {
    x * Pow10(places) as real
  }

  lemma LiftedInUnits(d: Scaled, places: nat)
    requires d.scale <= places
    ensures InUnits(Number(d), places) == Lifted(d, places) as real
  {
    LiftedNumber(d, places);
  }

  lemma ShiftedInUnits(d: Scaled, places: nat)
    ensures Number(Shifted(d, places)) == InUnits(Number(d), places)
  {
    ShiftIsExact(d, places);
  }

  lemma UnitsKeepSign(x: real, places: nat)
    ensures InUnits(x, places) > 0.0 <==> x > 0.0
  {
    ZeroProduct(x, Pow10(places) as real);
  }

  lemma AppendedZeros(n: nat, scale: nat, places: nat)
    requires scale <= places
    ensures Appended(n, places - scale, 0) == Lifted(Scaled(n, scale), places)
  {
  }

  lemma ShortIsPadded(fraction: string, places: nat)
    requires |fraction| <= places
    ensures PadEnd(Cut(fraction, places), places) == fraction + Zeros(places - |fraction|)
  {
    assert fraction + Zeros(0) == fraction;
  }

  lemma ShortIsKept(integer: string, fraction: string, places: nat)
    requires AllDigits(integer) && AllDigits(fraction) && |fraction| <= places
    ensures AllDigits(fraction + Zeros(places - |fraction|))
    ensures RoundedDigits(integer, fraction, places)
      == Appended(ValueOf(integer), places, ValueOf(fraction + Zeros(places - |fraction|)))
  {
    hide ValueOf, Pow10, Appended;
    ShortIsPadded(fraction, places);
  }

  /** Digits may be appended in one step or in two. */
  lemma AppendedTwice(a: string, b: string, c: string)
    requires AllDigits(a) && AllDigits(b) && AllDigits(c)
    ensures AllDigits(a + b) && AllDigits(b + c)
    ensures Appended(ValueOf(a), |b + c|, ValueOf(b + c)) == Appended(ValueOf(a + b), |c|, ValueOf(c))
  {
    DigitsJoin(a, b);
    DigitsJoin(b, c);
    assert a + (b + c) == a + b + c;
    hide *;
    AppendedDigits(a, b + c);
    AppendedDigits(a + b, c);
  }

  lemma CutValue(integer: string, fraction: string, places: nat)
    requires AllDigits(integer) && AllDigits(fraction) && |fraction| <= places
    ensures AllDigits(integer + fraction)
    ensures RoundedDigits(integer, fraction, places) == Lifted(Scaled(ValueOf(integer + fraction), |fraction|), places)
  {
    var zeros := Zeros(places - |fraction|);
    hide ValueOf, Pow10, PadEnd, Cut, Appended, Lifted, RoundedDigits;
    assert |fraction + zeros| == places;
    ShortIsKept(integer, fraction, places);
    ValueOfZeros(places - |fraction|);
    AppendedTwice(integer, fraction, zeros);
    AppendedZeros(ValueOf(integer + fraction), |fraction|, places);
  }

  /** The leading digit decides which half of a power of ten a digit string falls in. */
  lemma LeadingDigitDecidesHalf(tail: string)
    requires AllDigits(tail) && tail != ""
    ensures DigitValue(tail[0]) >= 5 <==> 2 * ValueOf(tail) >= Pow10(|tail|)
  {
    var rest := tail[1..];
    assert tail == [tail[0]] + rest;
    ValueOfConcat([tail[0]], rest);
    ValueBelow(rest);
    assert ValueOf([tail[0]]) == DigitValue(tail[0]) by { assert [tail[0]][..0] == ""; }
    assert Pow10(|tail|) == 10 * Pow10(|rest|);
    HalfOfTen(DigitValue(tail[0]), ValueOf(rest), Pow10(|rest|), ValueOf(tail));
  }

  lemma HalfOfTen(d: nat, low: nat, unit: nat, n: nat)
    requires low < unit && n == d * unit + low
    ensures d >= 5 <==> 2 * n >= 10 * unit
  {
    if d >= 5 {
      assert d * unit >= 5 * unit;
    } else {
      assert d * unit <= 4 * unit;
    }
  }

  /** `rounded * unit` is within half a unit of `n`, ties upward. */
  ghost predicate IsNearest(rounded: nat, n: nat, unit: nat) {
    2 * rounded * unit <= 2 * n + unit < 2 * (rounded + 1) * unit
  }

  lemma CutRounds(integer: string, fraction: string, places: nat)
    requires AllDigits(integer) && AllDigits(fraction) && |fraction| > places
    ensures AllDigits(integer + fraction)
    ensures IsNearest(RoundedDigits(integer, fraction, places), ValueOf(integer + fraction), Pow10(|fraction| - places))
  {
    var head, tail := fraction[..places], fraction[places..];
    var unit := Pow10(|tail|);
    DigitsJoin(integer, fraction);
    DigitsJoin(integer, head);
    AppendedDigits(integer, head);
    ValueOfConcat(integer + head, tail);
    ValueBelow(tail);
    LeadingDigitDecidesHalf(tail);
    assert integer + fraction == integer + head + tail;
    assert PadEnd(Cut(fraction, places), places) == head;
    var kept := ValueOf(integer + head);
    assert RoundedDigits(integer, fraction, places) == if DigitValue(tail[0]) >= 5 then kept + 1 else kept;
    HalfUpBounds(kept, ValueOf(tail), unit, ValueOf(integer + fraction));
  }

  lemma HalfUpBounds(kept: nat, low: nat, unit: nat, n: nat)
    requires low < unit && n == kept * unit + low
    ensures IsNearest(if 2 * low >= unit then kept + 1 else kept, n, unit)
  {
    assert 2 * (kept + 1) * unit == 2 * kept * unit + 2 * unit;
    assert 2 * (kept + 2) * unit == 2 * kept * unit + 4 * unit;
    assert 2 * kept * unit == 2 * (kept * unit);
  }

  lemma HalfUpOfSmall(rounded: nat, scaled: real)
    requires IsHalfUp(rounded, scaled)
    ensures rounded == 0 <==> scaled < 0.5
  {
  }

  lemma TwicePlusOne(x: real, p: real)
    ensures (2.0 * x + 1.0) * p == 2.0 * (x * p) + p
  {
  }

  lemma RealBounds(n: nat, unit: nat, rounded: nat, x: real)
    requires unit > 0 && x * unit as real == n as real
    requires IsNearest(rounded, n, unit)
    ensures IsHalfUp(rounded, x)
  {
    var low, mid, high := 2 * rounded * unit, 2 * n + unit, 2 * (rounded + 1) * unit;
    ProductIsReal(2 * rounded, unit);
    ProductIsReal(2 * (rounded + 1), unit);
    TwicePlusOne(x, unit as real);
    ProductOrder((2 * rounded) as real, 2.0 * x + 1.0, unit as real, low, mid);
    ProductOrder(2.0 * x + 1.0, (2 * (rounded + 1)) as real, unit as real, mid, high);
  }

  lemma NearestIsHalfUp(d: Scaled, rounded: nat)
    requires d.coefficient >= 0 && IsNearest(rounded, d.coefficient, Pow10(d.scale))
    ensures IsHalfUp(rounded, Number(d))
  {
    NumberIs(d, Number(d));
    hide *;
    RealBounds(d.coefficient, Pow10(d.scale), rounded, Number(d));
  }

  ghost predicate IsHalfUp(rounded: nat, scaled: real) {
    scaled - 0.5 < rounded as real <= scaled + 0.5
  }

  lemma ShortFractionIsExact(integer: string, fraction: string, places: nat)
    requires AllDigits(integer) && AllDigits(fraction) && AllDigits(integer + fraction) && |fraction| <= places
    ensures RoundedDigits(integer, fraction, places) as real
      == InUnits(Number(Scaled(ValueOf(integer + fraction), |fraction|)), places)
  {
    hide *;
    CutValue(integer, fraction, places);
    LiftedInUnits(Scaled(ValueOf(integer + fraction), |fraction|), places);
  }

  lemma LongFractionIsHalfUp(integer: string, fraction: string, places: nat)
    requires AllDigits(integer) && AllDigits(fraction) && AllDigits(integer + fraction) && |fraction| > places
    ensures IsHalfUp(RoundedDigits(integer, fraction, places),
                     InUnits(Number(Scaled(ValueOf(integer + fraction), |fraction|)), places))
  {
    var size := Scaled(ValueOf(integer + fraction), |fraction|);
    var e := Scaled(size.coefficient, |fraction| - places);
    assert Shifted(size, places) == e;
    hide *;
    CutRounds(integer, fraction, places);
    ShiftedInUnits(size, places);
    NearestIsHalfUp(e, RoundedDigits(integer, fraction, places));
  }

  /**
   * Although only one digit past the cut is inspected, the result is the half-up rounding of the
   * magnitude: within half a unit of it, ties upward.
   */
  lemma RoundsHalfUp(value: string, places: nat)
    requires IsNumeral(value)
    ensures IsHalfUp(Rounded(value, places), InUnits(Number(Size(value)), places))
  {
    hide RoundedDigits, Number, Pow10, InUnits;
    var (integer, fraction) := SplitPoint(WithoutSign(value));
    DigitsJoin(integer, fraction);
    if |fraction| <= places {
      ShortFractionIsExact(integer, fraction, places);
      assert Rounded(value, places) == RoundedDigits(integer, fraction, places);
    } else {
      LongFractionIsHalfUp(integer, fraction, places);
    }
  }

  lemma {:induction false} NonzeroDigitMeansNonzero(s: string)
    requires AllDigits(s)
    ensures HasNonzeroDigit(s) <==> ValueOf(s) > 0
  {
    if s != "" {
      var n := |s| - 1;
      NonzeroDigitMeansNonzero(s[..n]);
      if i :| 0 <= i < |s| && IsNonzeroDigit(s[i]) {
        assert i < n ==> IsNonzeroDigit(s[..n][i]);
      }
      if HasNonzeroDigit(s[..n]) {
        var i :| 0 <= i < n && IsNonzeroDigit(s[..n][i]);
        assert IsNonzeroDigit(s[i]);
      }
      assert IsDigit(s[n]);
    }
  }

  lemma {:induction false} HasNonzeroConcat(a: string, b: string)
    ensures HasNonzeroDigit(a + b) <==> HasNonzeroDigit(a) || HasNonzeroDigit(b)
  {
    if i :| 0 <= i < |a| && IsNonzeroDigit(a[i]) {
      assert IsNonzeroDigit((a + b)[i]);
    }
    if i :| 0 <= i < |b| && IsNonzeroDigit(b[i]) {
      assert IsNonzeroDigit((a + b)[|a| + i]);
    }
  }

  /** A numeral has a nonzero digit exactly when one of its two parts has. */
  lemma NonzeroParts(value: string)
    requires IsNumeral(value)
    ensures var (integer, fraction) := SplitPoint(WithoutSign(value));
      HasNonzeroDigit(value) <==> HasNonzeroDigit(integer) || HasNonzeroDigit(fraction)
  {
    var (integer, fraction) := SplitPoint(WithoutSign(value));
    HasNonzeroConcat(integer, ".");
    HasNonzeroConcat(integer + ".", fraction);
    var u := WithoutSign(value);
    var sign := value[..|value| - |u|];
    HasNonzeroConcat(sign, u);
    assert value == sign + u;
    assert !HasNonzeroDigit(sign) && !HasNonzeroDigit(".");
    IntegerAlone(value);
  }

  lemma NonzeroDigitsOf(value: string)
    requires IsNumeral(value)
    ensures HasNonzeroDigit(value) <==> Size(value).coefficient > 0
  {
    NonzeroParts(value);
    hide HasNonzeroDigit, SplitPoint, ValueOf;
    var (integer, fraction) := SplitPoint(WithoutSign(value));
    DigitsJoin(integer, fraction);
    NonzeroDigitMeansNonzero(integer + fraction);
    HasNonzeroConcat(integer, fraction);
  }

  /** Without a point there is no fraction. */
  lemma IntegerAlone(value: string)
    requires IsNumeral(value)
    ensures var (integer, fraction) := SplitPoint(WithoutSign(value));
      WithoutSign(value) == integer ==> fraction == ""
  {
  }

  /** Digits that show `scaled` to `places`: no superfluous leading zero, exactly the places asked for. */
  ghost predicate ShowsHalfUp(integer: string, fraction: string, places: nat, scaled: real) {
    && |fraction| == places
    && AllDigits(integer) && AllDigits(fraction) && AllDigits(integer + fraction)
    && (integer == "0" || IsNonzeroInteger(integer))
    && IsHalfUp(ValueOf(integer + fraction), scaled)
  }

  /** The fraction reads as one unit of its last place. */
  ghost predicate IsOneUnit(fraction: string, places: nat) {
    |fraction| == places && AllDigits(fraction) && ValueOf(fraction) == 1
  }

  function MinusOf(value: string): string { if value != "" && value[0] == '-' then "\U{2212}" else "" }

  lemma BelowIsOneUnit(places: nat)
    requires places >= 1
    ensures IsOneUnit(Zeros(places - 1) + "1", places)
    ensures BelowResolution(places) == "<0." + (Zeros(places - 1) + "1")
  {
    var zeros := Zeros(places - 1);
    assert "<0." + zeros + "1" == "<0." + (zeros + "1");
    ValueOfZeros(places - 1);
    assert "1"[..0] == "" && ValueOf("1") == 1;
    ValueOfConcat(zeros, "1");
    DigitsJoin(zeros, "1");
  }

  /**
   * The "<" form appears exactly when the value is not zero and its magnitude is below half of the
   * last place, and it then names one unit of that place; otherwise the text is an integer part without
   * superfluous zeros, a point and exactly `places` digits, which together read as the half-up rounding.
   * Either has a minus before it exactly when the value has one.
   */
  lemma DisplayIsRounding(value: string, places: nat)
    requires IsNumeral(value) && places >= 1
    ensures var scaled := InUnits(Number(Size(value)), places);
      if 0.0 < scaled < 0.5 then
        exists fraction :: IsOneUnit(fraction, places)
          && DisplayDecimal(value, places) == MinusOf(value) + "<0." + fraction
      else
        exists integer, fraction :: ShowsHalfUp(integer, fraction, places, scaled)
          && DisplayDecimal(value, places) == MinusOf(value) + integer + "." + fraction
  {
    assert SignText(value) == MinusOf(value);
    hide *;
    var scaled := InUnits(Number(Size(value)), places);
    SmallMeansUnshowable(value, places);
    if 0.0 < scaled < 0.5 {
      UnshowableText(value, places);
      BelowIsOneUnit(places);
      var fraction := Zeros(places - 1) + "1";
      assert MinusOf(value) + ("<0." + fraction) == MinusOf(value) + "<0." + fraction;
      assert IsOneUnit(fraction, places) && DisplayDecimal(value, places) == MinusOf(value) + "<0." + fraction;
    } else {
      var integer, fraction := ShownText(value, places);
      assert ShowsHalfUp(integer, fraction, places, scaled)
        && DisplayDecimal(value, places) == MinusOf(value) + integer + "." + fraction;
    }
  }

  lemma SignedParts(value: string, sign: char)
    requires IsNumeral(value) && WithoutSign(value) == value && (sign == '+' || sign == '-')
    ensures WithoutSign([sign] + value) == value && IsNumeral([sign] + value)
    ensures HasNonzeroDigit([sign] + value) <==> HasNonzeroDigit(value)
  {
    assert ([sign] + value)[1..] == value;
    HasNonzeroConcat([sign], value);
  }

  /** What is shown after the sign. */
  function ShownSize(rounded: nat, isNonzero: bool, places: nat): string
    requires places >= 1
  {
    if rounded == 0 && isNonzero then BelowResolution(places)
    else
      var digits := PadStart(ToDigits(rounded), places + 1);
      PadStartLength(ToDigits(rounded), places + 1);
      digits[..|digits| - places] + "." + digits[|digits| - places..]
  }

  lemma DisplayIsSigned(value: string, places: nat)
    requires IsNumeral(value) && places >= 1
    ensures DisplayDecimal(value, places)
      == SignText(value) + ShownSize(Rounded(value, places), HasNonzeroDigit(value), places)
  {
    hide IsNumeral, Rounded, HasNonzeroDigit, ToDigits, PadStart, BelowResolution, SignText;
    var digits := PadStart(ToDigits(Rounded(value, places)), places + 1);
    PadStartLength(ToDigits(Rounded(value, places)), places + 1);
    SignInFront(SignText(value), digits[..|digits| - places], digits[|digits| - places..]);
  }

  lemma SignInFront(sign: string, integer: string, fraction: string)
    ensures sign + integer + "." + fraction == sign + (integer + "." + fraction)
  {
  }

  lemma NothingInFront(text: string)
    ensures "" + text == text
  {
  }

  /** A plus changes nothing, and a minus is shown before what is shown without it. */
  lemma SignIsShown(value: string, places: nat)
    requires IsNumeral(value) && WithoutSign(value) == value && places >= 1
    ensures IsNumeral("+" + value) && DisplayDecimal("+" + value, places) == DisplayDecimal(value, places)
    ensures IsNumeral("-" + value)
    ensures DisplayDecimal("-" + value, places) == "\U{2212}" + DisplayDecimal(value, places)
  {
    SignedParts(value, '+');
    SignedParts(value, '-');
    assert ['+'] + value == "+" + value && ['-'] + value == "-" + value;
    assert |WithoutSign(value)| == |value|;
    assert SignText("+" + value) == "" && SignText("-" + value) == "\U{2212}";
    assert Rounded("+" + value, places) == Rounded("-" + value, places) == Rounded(value, places);
    hide *;
    DisplayIsSigned(value, places);
    DisplayIsSigned("+" + value, places);
    DisplayIsSigned("-" + value, places);
    NothingInFront(ShownSize(Rounded(value, places), HasNonzeroDigit(value), places));
  }

  predicate IsUnshowable(value: string, places: nat)
    requires IsNumeral(value)
  {
    Rounded(value, places) == 0 && HasNonzeroDigit(value)
  }

  lemma SmallMeansUnshowable(value: string, places: nat)
    requires IsNumeral(value)
    ensures 0.0 < InUnits(Number(Size(value)), places) < 0.5 <==> IsUnshowable(value, places)
  {
    hide Number, Pow10, Rounded, Size, InUnits, IsNumeral, HasNonzeroDigit;
    RoundsHalfUp(value, places);
    HalfUpOfSmall(Rounded(value, places), InUnits(Number(Size(value)), places));
    NonzeroDigitsOf(value);
    NumberSign(Size(value));
    UnitsKeepSign(Number(Size(value)), places);
  }

  lemma UnshowableText(value: string, places: nat)
    requires IsNumeral(value) && places >= 1 && IsUnshowable(value, places)
    ensures DisplayDecimal(value, places) == SignText(value) + BelowResolution(places)
  {
    hide IsNumeral, Rounded, HasNonzeroDigit;
  }

  lemma ShownText(value: string, places: nat) returns (integer: string, fraction: string)
    requires IsNumeral(value) && places >= 1 && !IsUnshowable(value, places)
    ensures ShowsHalfUp(integer, fraction, places, InUnits(Number(Size(value)), places))
    ensures DisplayDecimal(value, places) == SignText(value) + integer + "." + fraction
  {
    hide IsNumeral, Rounded, HasNonzeroDigit, ToDigits, InUnits, Number, Size, PadStart, AllDigits, IsNonzeroInteger,
         ValueOf, IsHalfUp, SignText, BelowResolution;
    var rounded := Rounded(value, places);
    RoundsHalfUp(value, places);
    DigitsSplit(rounded, places);
    var digits := PadStart(ToDigits(rounded), places + 1);
    integer, fraction := digits[..|digits| - places], digits[|digits| - places..];
  }

  lemma DigitsSplit(n: nat, places: nat)
    ensures var digits := PadStart(ToDigits(n), places + 1);
      && |digits| > places
      && var integer, fraction := digits[..|digits| - places], digits[|digits| - places..];
      && AllDigits(integer) && AllDigits(fraction) && AllDigits(integer + fraction)
      && (integer == "0" || IsNonzeroInteger(integer))
      && ValueOf(integer + fraction) == n
  {
    hide ValueOf;
    ToDigitsShape(n);
    PadStartShape(ToDigits(n), places + 1);
    var digits := PadStart(ToDigits(n), places + 1);
    var integer, fraction := digits[..|digits| - places], digits[|digits| - places..];
    assert integer + fraction == digits;
    if |ToDigits(n)| <= places {
      assert integer == "0";
    } else if n == 0 {
      assert ToDigits(0) == "0";
    }
  }

  // ----- the report's own percentages

  lemma CanonicalIsNumeral(value: string)
    requires IsCanonical(value)
    ensures IsNumeral(value)
    ensures Size(value) == (if value[0] == '-' then Negated(Parse(value).value) else Parse(value).value)
  {
    NoPlus(value);
    var u := if value[0] == '-' then value[1..] else value;
    assert WithoutSign(value) == u;
    SplitCanonical(u);
  }

  function Negated(d: Scaled): Scaled { Scaled(-d.coefficient, d.scale) }

  function Absolute(x: real): real { if x < 0.0 then -x else x }

  lemma SizeIsAbsolute(value: string)
    requires IsCanonical(value)
    ensures IsNumeral(value) && Number(Size(value)) == Absolute(Denotes(value))
    ensures value[0] == '-' <==> Denotes(value) < 0.0
  {
    CanonicalIsNumeral(value);
    var d := Parse(value).value;
    NegatedNumber(d.coefficient, d.scale);
    NumberSign(d);
    NumberSign(Size(value));
    if value[0] == '-' {
      CanonicalStart(value[1..]);
      CanonicalIsMagnitude(value[1..]);
    }
  }

  /** `displayDecimal(pathPercent(value).slice(0, -1), 4) + '%'`. */
  function ReportPercent(value: string): string
    requires IsCanonical(value)
  {
    PercentIsExact(value);
    var text := Percent(value).value;
    CanonicalIsNumeral(text[..|text| - 1]);
    DisplayDecimal(text[..|text| - 1], 4) + "%"
  }

  /** A ratio is shown as 100 times itself, rounded half up to four places, with its own sign. */
  lemma ReportPercentRounds(value: string)
    requires IsCanonical(value)
    ensures var scaled := InUnits(Absolute(100.0 * Denotes(value)), 4);
      var sign := if Denotes(value) < 0.0 then "\U{2212}" else "";
      if 0.0 < scaled < 0.5 then
        ReportPercent(value) == sign + "<0.0001" + "%"
      else
        exists integer, fraction :: ShowsHalfUp(integer, fraction, 4, scaled)
          && ReportPercent(value) == sign + integer + "." + fraction + "%"
  {
    hide Percent, Pow10, IsCanonical, DisplayDecimal, Number, Parse, ShowsHalfUp, InUnits;
    PercentIsExact(value);
    var text := Percent(value).value;
    var number := text[..|text| - 1];
    SizeIsAbsolute(number);
    FourPlaces();
    DisplayIsRounding(number, 4);
    SmallMeansUnshowable(number, 4);
    assert Denotes(number) < 0.0 <==> Denotes(value) < 0.0;
    assert ReportPercent(value) == DisplayDecimal(number, 4) + "%";
    var sign := if Denotes(value) < 0.0 then "\U{2212}" else "";
    NoPlus(number);
    assert SignText(number) == sign;
    var scaled := InUnits(Absolute(100.0 * Denotes(value)), 4);
    if 0.0 < scaled < 0.5 {
      UnshowableText(number, 4);
    } else {
      var integer, fraction :| ShowsHalfUp(integer, fraction, 4, scaled)
        && DisplayDecimal(number, 4) == MinusOf(number) + integer + "." + fraction;
      assert ReportPercent(value) == sign + integer + "." + fraction + "%";
    }
  }

  lemma FourPlaces()
    ensures BelowResolution(4) == "<0.0001"
  {
    assert Zeros(3) == "000";
    assert "<0." + "000" + "1" == "<0.0001";
  }
}
