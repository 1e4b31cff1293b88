/**
 * Unbounded decimal digit strings: what `BigInt(text)`, `toString`, `padStart` and `split('.')`
 * do to the strings the decimal code builds.
 */
module Digits {
  function Pow10(n: nat): (p: nat)
    ensures p > 0
  {
    if n == 0 then 1 else 10 * Pow10(n - 1)
  }

  predicate IsDigit(c: char) { '0' <= c <= '9' }

  predicate IsNonzeroDigit(c: char) { '1' <= c <= '9' }

  predicate AllDigits(s: string) { forall i :: 0 <= i < |s| ==> IsDigit(s[i]) }

  function DigitValue(c: char): nat
    requires IsDigit(c)
  {
    c as int - '0' as int
  }

  function DigitOf(d: nat): char
    requires d < 10
  {
    ('0' as int + d) as char
  }

  /** `BigInt(s)` for a string of digits; the empty string reads as zero. */
  function ValueOf(s: string): nat
    requires AllDigits(s)
  {
    if s == "" then 0 else 10 * ValueOf(s[..|s| - 1]) + DigitValue(s[|s| - 1])
  }

  /** `n.toString()`. */
  function ToDigits(n: nat): string {
    if n < 10 then [DigitOf(n)] else ToDigits(n / 10) + [DigitOf(n % 10)]
  }

  function Zeros(n: nat): string { seq(n, _ => '0') }

  /** `s.padStart(width, '0')`. */
  function PadStart(s: string, width: nat): string {
    if |s| >= width then s else Zeros(width - |s|) + s
  }

  /** Position of the first `c`, or the length when there is none. */
  function IndexOf(s: string, c: char): (k: nat)
    ensures k <= |s|
    ensures forall i :: 0 <= i < k ==> s[i] != c
    ensures k < |s| ==> s[k] == c
  {
    if s == "" || s[0] == c then 0 else 1 + IndexOf(s[1..], c)
  }

  lemma {:induction false} Pow10Sum(a: nat, b: nat)
    ensures Pow10(a + b) == Pow10(a) * Pow10(b)
  {
    if a > 0 {
      Pow10Sum(a - 1, b);
    }
  }

  lemma {:induction false} ToDigitsShape(n: nat)
    ensures AllDigits(ToDigits(n)) && |ToDigits(n)| > 0
    ensures ValueOf(ToDigits(n)) == n
    ensures DigitValue(ToDigits(n)[|ToDigits(n)| - 1]) == n % 10
    ensures n > 0 ==> IsNonzeroDigit(ToDigits(n)[0])
  {
    if n >= 10 {
      ToDigitsShape(n / 10);
      var head := ToDigits(n / 10);
      assert (head + [DigitOf(n % 10)])[..|head|] == head;
    }
  }

  lemma {:induction false} ValueBelow(s: string)
    requires AllDigits(s)
    ensures ValueOf(s) < Pow10(|s|)
  {
    if s != "" {
      ValueBelow(s[..|s| - 1]);
    }
  }

  lemma {:induction false} ValueOfConcat(a: string, b: string)
    requires AllDigits(a) && AllDigits(b)
    ensures AllDigits(a + b)
    ensures ValueOf(a + b) == ValueOf(a) * Pow10(|b|) + ValueOf(b)
  {
    if b == "" {
      assert a + b == a;
    } else {
      var front := b[..|b| - 1];
      ValueOfConcat(a, front);
      assert (a + b)[..|a + b| - 1] == a + front;
      assert (a + b)[|a + b| - 1] == b[|b| - 1];
      assert Pow10(|b|) == 10 * Pow10(|front|);
      OneDigitMore(ValueOf(a), Pow10(|front|), ValueOf(front), DigitValue(b[|b| - 1]));
    }
  }

  lemma OneDigitMore(high: nat, unit: nat, low: nat, digit: nat)
    ensures 10 * (high * unit + low) + digit == high * (10 * unit) + (10 * low + digit)
  {
  }

  lemma {:induction false} ValueOfZeros(n: nat)
    ensures ValueOf(Zeros(n)) == 0
  {
    if n > 0 {
      ValueOfZeros(n - 1);
      assert Zeros(n)[..n - 1] == Zeros(n - 1);
    }
  }

  lemma PadStartShape(s: string, width: nat)
    requires AllDigits(s)
    ensures AllDigits(PadStart(s, width))
    ensures |PadStart(s, width)| == if |s| >= width then |s| else width
    ensures ValueOf(PadStart(s, width)) == ValueOf(s)
  {
    if |s| < width {
      ValueOfZeros(width - |s|);
      ValueOfConcat(Zeros(width - |s|), s);
    }
  }

  /** Two digit strings of one length are the same string as soon as they read as the same number. */
  lemma {:induction false} ValueInjective(a: string, b: string)
    requires AllDigits(a) && AllDigits(b) && |a| == |b|
    requires ValueOf(a) == ValueOf(b)
    ensures a == b
  {
    if a != "" {
      var n := |a| - 1;
      LastDigitDecides(ValueOf(a[..n]), DigitValue(a[n]), ValueOf(b[..n]), DigitValue(b[n]));
      assert a[n] == b[n];
      hide ValueOf;
      ValueInjective(a[..n], b[..n]);
      assert a == a[..n] + [a[n]];
      assert b == b[..n] + [b[n]];
    }
  }

  lemma LastDigitDecides(x: nat, d: nat, y: nat, e: nat)
    requires d < 10 && e < 10 && 10 * x + d == 10 * y + e
    ensures x == y && d == e
  {
  }

  lemma {:induction false} LeadingDigitBound(s: string)
    requires AllDigits(s) && s != "" && IsNonzeroDigit(s[0])
    ensures Pow10(|s| - 1) <= ValueOf(s)
  {
    if |s| > 1 {
      LeadingDigitBound(s[..|s| - 1]);
    }
  }

  lemma {:induction false} Pow10Monotone(a: nat, b: nat)
    requires a <= b
    ensures Pow10(a) <= Pow10(b)
  {
    if a < b {
      Pow10Monotone(a, b - 1);
    }
  }

  /** A number below 10^k prints with at most k digits. */
  lemma ToDigitsLength(n: nat, k: nat)
    requires k > 0 && n < Pow10(k)
    ensures |ToDigits(n)| <= k
  {
    ToDigitsShape(n);
    if n > 0 && |ToDigits(n)| > k {
      LeadingDigitBound(ToDigits(n));
      Pow10Monotone(k, |ToDigits(n)| - 1);
    }
  }

  /** A digit string without a leading zero is exactly what its number prints as. */
  lemma ToDigitsOfValue(s: string)
    requires AllDigits(s) && s != "" && IsNonzeroDigit(s[0])
    ensures ToDigits(ValueOf(s)) == s
  {
    hide *;
    var n := ValueOf(s);
    LeadingDigitBound(s);
    ValueBelow(s);
    ToDigitsShape(n);
    ToDigitsLength(n, |s|);
    LeadingDigitBound(ToDigits(n));
    ValueBelow(ToDigits(n));
    if |ToDigits(n)| < |s| {
      Pow10Monotone(|ToDigits(n)|, |s| - 1);
    }
    ValueInjective(ToDigits(n), s);
  }
}
