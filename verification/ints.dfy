/**
  * Python's `int(text)` on base-10 text and `str(n)` / f-string rendering of integers.
  * `int()` ignores surrounding whitespace, takes one optional sign and ASCII digits that
  * may be grouped by single underscores; anything else raises `ValueError` (here: `None`).
  */
module Ints {

  import opened Common
  import opened Text

  predicate IsDigit(c: char) {
    '0' <= c <= '9'
  }

  function DigitValue(c: char): (d: nat)
    requires IsDigit(c)
    ensures d < 10
  {
    (c as int) - ('0' as int)
  }

  function DigitChar(d: nat): (c: char)
    requires d < 10
    ensures IsDigit(c) && DigitValue(c) == d
  {
    ((d + '0' as int) as char)
  }

  predicate AllDigits(s: string) {
    forall i | 0 <= i < |s| :: IsDigit(s[i])
  }

  /** Digits grouped by single underscores, as `int()` accepts them: `1_000` but not `_1`, `1_` or `1__0`. */
  predicate GroupedDigits(s: string) {
    && s != []
    && IsDigit(s[0])
    && IsDigit(s[|s| - 1])
    && (forall i | 0 <= i < |s| :: IsDigit(s[i]) || s[i] == '_')
    && (forall i | 0 <= i < |s| - 1 :: s[i] == '_' ==> IsDigit(s[i + 1]))
  }

  /** The digits of `s` with the grouping underscores removed. */
  function DropUnderscores(s: string): (r: string)
    ensures |r| <= |s|
    ensures (forall i | 0 <= i < |s| :: IsDigit(s[i]) || s[i] == '_') ==> AllDigits(r)
  {
    if s == [] then []
    else if s[0] == '_' then DropUnderscores(s[1..])
    else [s[0]] + DropUnderscores(s[1..])
  }

  /** The value of a string of decimal digits, most significant first. */
  function DigitsValue(s: string): nat
    requires AllDigits(s)
  {
    if s == [] then 0 else 10 * DigitsValue(s[..|s| - 1]) + DigitValue(s[|s| - 1])
  }

  /** An optionally signed run of grouped digits, as `int()` reads it once whitespace is stripped. */
  function ParseLiteral(t: string): (r: Option<int>)
    ensures t == [] ==> r.None?
  {
    if t == [] then None
    else
      var body := if t[0] == '-' || t[0] == '+' then t[1..] else t;
      if !GroupedDigits(body) then None
      else
        var magnitude: int := DigitsValue(DropUnderscores(body));
        Some(if t[0] == '-' then -magnitude else magnitude)
  }

  /** `int(text)` in base 10: `None` where Python raises `ValueError`. */
  function ParseInt(text: string): (r: Option<int>)
    ensures AllSpace(text) ==> r.None?
  {
    ParseLiteral(Strip(text))
  }

  /** Decimal rendering of a natural number, without leading zeros. */
  function NatToString(n: nat): (s: string)
    ensures s != [] && AllDigits(s)
    ensures |s| > 1 ==> s[0] != '0'
    decreases n
  {
    if n < 10 then [DigitChar(n)] else NatToString(n / 10) + [DigitChar(n % 10)]
  }

  /** `str(i)` / `f"{i}"`: a minus sign for negative numbers, then the decimal digits. */
  function IntToString(i: int): (s: string)
    ensures s != []
    ensures forall k | 0 <= k < |s| :: IsDigit(s[k]) || s[k] == '-'
  {
    if i < 0 then "-" + NatToString(-i) else NatToString(i)
  }

  lemma {:induction false} NatToStringValue(n: nat)
    ensures DigitsValue(NatToString(n)) == n
    decreases n
  {
    if n >= 10 {
      var s := NatToString(n);
      NatToStringValue(n / 10);
      assert s[..|s| - 1] == NatToString(n / 10);
    }
  }

  lemma {:induction false} DropUnderscoresDigits(s: string)
    requires AllDigits(s)
    ensures DropUnderscores(s) == s
  {
    if s != [] {
      DropUnderscoresDigits(s[1..]);
      assert [s[0]] + s[1..] == s;
    }
  }

  /** A plain run of digits is read as its decimal value. */
  lemma {:induction false} ParseLiteralDigits(sign: string, digits: string)
    requires sign == [] || sign == "-"
    requires digits != [] && AllDigits(digits)
    ensures ParseLiteral(sign + digits) == Some(if sign == [] then DigitsValue(digits) as int else 0 - DigitsValue(digits) as int)
  {
    var t := sign + digits;
    assert t[0] == (if sign == [] then digits[0] else '-');
    assert (if t[0] == '-' || t[0] == '+' then t[1..] else t) == digits;
    assert GroupedDigits(digits);
    DropUnderscoresDigits(digits);
  }

  /** Rendering a number and parsing it back gives the number: `int(str(i)) == i`. */
  lemma {:induction false} ParseIntRoundTrip(i: int)
    ensures ParseInt(IntToString(i)) == Some(i)
  {
    var s := IntToString(i);
    var n: nat := if i < 0 then -i else i;
    var digits := NatToString(n);
    assert Trimmed(s) by {
      assert !IsSpace(s[0]) && !IsSpace(s[|s| - 1]);
    }
    StripTrimmed(s);
    NatToStringValue(n);
    if i < 0 {
      ParseLiteralDigits("-", digits);
    } else {
      assert s == [] + digits;
      ParseLiteralDigits([], digits);
    }
  }

  /** Whitespace around a number is ignored: `int(" 7 ") == 7`. */
  lemma ParseIntStrip(text: string)
    ensures ParseInt(Strip(text)) == ParseInt(text)
  {
    StripTrimmed(Strip(text));
  }
}
