/**
 * Decimal text for integers: how JavaScript prints a number into a string
 * (template literals, `String(n)`) and reads one back (`Number(s)`,
 * `parseInt(s)`), for integer values.
 */
module Decimal {
  import opened Wrappers
  import Text

  predicate IsDigit(c: char) {
    '0' <= c <= '9'
  }

  predicate AllDigits(s: string) {
    forall i :: 0 <= i < |s| ==> IsDigit(s[i])
  }

  function DigitChar(d: nat): (c: char)
    requires d < 10
    ensures IsDigit(c)
  {
    ('0' as int + d) as char
  }

  function DigitValue(c: char): (d: nat)
    requires IsDigit(c)
    ensures d < 10
  {
    c as int - '0' as int
  }

  /** The decimal digits of `n`, most significant first, without leading zeros. */
  function NatToString(n: nat): (s: string)
    ensures |s| >= 1 && AllDigits(s)
    ensures s[0] == '0' ==> n == 0
  {
    if n < 10 then [DigitChar(n)] else NatToString(n / 10) + [DigitChar(n % 10)]
  }

  /** `String(n)` / `${n}` for an integer `n`. */
  function IntToString(n: int): (s: string)
    ensures |s| >= 1
    ensures forall i :: 0 <= i < |s| ==> IsDigit(s[i]) || s[i] == '-'
  {
    if n < 0 then "-" + NatToString(-n) else NatToString(n)
  }

  /** The value of a string of decimal digits (the empty string reads as 0). */
  function DigitsValue(s: string): nat
    requires AllDigits(s)
  {
    if s == [] then 0 else DigitsValue(s[..|s| - 1]) * 10 + DigitValue(s[|s| - 1])
  }

  /** Strict decimal syntax: an optional sign, then one or more digits. */
  function ParseInteger(s: string): (r: Option<int>)
    ensures r.Some? <==> (|s| >= 1 && AllDigits(s)) || (|s| >= 2 && (s[0] == '-' || s[0] == '+') && AllDigits(s[1..]))
  {
    if |s| >= 1 && AllDigits(s) then Some(DigitsValue(s))
    else if |s| >= 2 && s[0] == '-' && AllDigits(s[1..]) then Some(-(DigitsValue(s[1..]) as int))
    else if |s| >= 2 && s[0] == '+' && AllDigits(s[1..]) then Some(DigitsValue(s[1..]))
    else None
  }

  lemma {:induction false} NatRoundTrip(n: nat)
    ensures DigitsValue(NatToString(n)) == n
  {
    if n >= 10 {
      var s := NatToString(n / 10) + [DigitChar(n % 10)];
      assert s[..|s| - 1] == NatToString(n / 10);
      NatRoundTrip(n / 10);
    }
  }

  /** Reading back what was printed gives the number that was printed. */
  lemma IntRoundTrip(n: int)
    ensures ParseInteger(IntToString(n)) == Some(n)
  {
    if n < 0 {
      NatRoundTrip(-n);
      assert IntToString(n)[1..] == NatToString(-n);
    } else {
      NatRoundTrip(n);
    }
  }

  /** Printing is injective: different numbers never print the same text. */
  lemma IntToStringInjective(a: int, b: int)
    requires IntToString(a) == IntToString(b)
    ensures a == b
  {
    IntRoundTrip(a);
    IntRoundTrip(b);
  }

  /**
   * `Number(s)` for the integer forms: surrounding whitespace is ignored,
   * a blank string is 0, an optionally signed run of digits is its value;
   * anything else is NaN (`None`). Fractions, exponents, hexadecimal and
   * `Infinity` are not covered.
   */
  function JsNumber(s: string): Option<int> {
    var t := Text.Trim(s);
    if t == "" then Some(0) else ParseInteger(t)
  }

  /** The longest prefix of digits. */
  function DigitPrefix(s: string): (p: string)
    ensures AllDigits(p) && Text.StartsWith(s, p)
    ensures |p| < |s| ==> !IsDigit(s[|p|])
  {
    if s != [] && IsDigit(s[0]) then [s[0]] + DigitPrefix(s[1..]) else []
  }

  /**
   * `parseInt(s)` read in base 10: leading whitespace is skipped, an
   * optional sign is read, then the longest run of digits; no digits means
   * NaN. The page calls it without a radix, where a "0x" prefix would switch
   * to base 16; the number input it reads sanitises its value to decimal
   * text, so such a prefix does not reach it.
   */
  function JsParseInt(s: string): Option<int> {
    var t := Text.TrimStart(s);
    var neg := t != [] && t[0] == '-';
    var body := if t != [] && (t[0] == '-' || t[0] == '+') then t[1..] else t;
    var digits := DigitPrefix(body);
    if digits == [] then None
    else if neg then Some(-(DigitsValue(digits) as int))
    else Some(DigitsValue(digits))
  }

  lemma NoWhitespaceInNumber(n: int)
    ensures forall i :: 0 <= i < |IntToString(n)| ==> !Text.IsJsWhitespace(IntToString(n)[i])
  {
  }

  /** `Number(String(n)) == n`: an id printed into the page is read back unchanged. */
  lemma JsNumberOfPrinted(n: int)
    ensures JsNumber(IntToString(n)) == Some(n)
  {
    var s := IntToString(n);
    NoWhitespaceInNumber(n);
    assert Text.TrimStart(s) == s;
    assert Text.TrimEnd(s) == s;
    IntRoundTrip(n);
  }

  lemma DigitPrefixOfDigits(s: string)
    requires AllDigits(s)
    ensures DigitPrefix(s) == s
  {
    if s != [] {
      DigitPrefixOfDigits(s[1..]);
    }
  }

  /** `parseInt(String(n)) == n`. */
  lemma JsParseIntOfPrinted(n: int)
    ensures JsParseInt(IntToString(n)) == Some(n)
  {
    var s := IntToString(n);
    assert !Text.IsJsWhitespace(s[0]);
    assert Text.TrimStart(s) == s;
    if n < 0 {
      ParseIntOfNegative(-n);
    } else {
      ParseIntOfDigits(NatToString(n));
      NatRoundTrip(n);
    }
  }

  lemma ParseIntOfDigits(s: string)
    requires |s| >= 1 && AllDigits(s)
    ensures JsParseInt(s) == Some(DigitsValue(s))
  {
    assert !Text.IsJsWhitespace(s[0]);
    assert Text.TrimStart(s) == s;
    DigitPrefixOfDigits(s);
  }

  lemma ParseIntOfNegative(m: nat)
    requires m > 0
    ensures JsParseInt("-" + NatToString(m)) == Some(-(m as int))
  {
    var s := "-" + NatToString(m);
    assert Text.TrimStart(s) == s;
    assert s[1..] == NatToString(m);
    DigitPrefixOfDigits(s[1..]);
    NatRoundTrip(m);
  }
}
