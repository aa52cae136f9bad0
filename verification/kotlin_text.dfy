/**
 * The pieces of Kotlin's standard library that the dialogs rely on:
 * the 32-bit `Int` range, `Char.isWhitespace` / `String.isNotBlank`,
 * `Char.isDigit`, `String.toIntOrNull` and `Int.toString`.
 * Digits are the ASCII digits '0'..'9'.
 */
module KotlinText {
  import opened Wrappers

  const MinInt32: int := -0x8000_0000
  const MaxInt32: int := 0x7FFF_FFFF

  /** Kotlin's `Int`. */
  type Int32 = x: int | MinInt32 <= x <= MaxInt32

  /**
   * `Char.isWhitespace` on the JVM: `Character.isWhitespace` or
   * `Character.isSpaceChar` (the Unicode space, line and paragraph separators).
   */
  predicate IsWhitespace(c: char) {
    || '\t' <= c <= '\r'
    || '\U{1C}' <= c <= ' '
    || c == '\U{A0}' || c == '\U{1680}'
    || '\U{2000}' <= c <= '\U{200A}'
    || c == '\U{2028}' || c == '\U{2029}' || c == '\U{202F}' || c == '\U{205F}' || c == '\U{3000}'
  }

  /** `String.isBlank`: empty, or whitespace only. */
  predicate IsBlank(s: string) {
    forall i | 0 <= i < |s| :: IsWhitespace(s[i])
  }

  predicate IsDigit(c: char) {
    '0' <= c <= '9'
  }

  predicate AllDigits(s: string) {
    forall i | 0 <= i < |s| :: IsDigit(s[i])
  }

  function DigitValue(c: char): (d: nat)
    requires IsDigit(c)
    ensures d < 10
  {
    c as int - '0' as int
  }

  function DigitChar(d: nat): (c: char)
    requires d < 10
    ensures IsDigit(c) && DigitValue(c) == d
  {
    ('0' as int + d) as char
  }

  /** The number a string of decimal digits denotes (most significant first). */
  function DigitsValue(s: string): nat
    requires AllDigits(s)
  {
    if s == [] then 0 else DigitsValue(s[..|s| - 1]) * 10 + DigitValue(s[|s| - 1])
  }

  /**
   * `String.toIntOrNull()`: an optional '+' or '-' followed by at least one
   * digit, whose value fits in an `Int`; anything else gives null.
   */
  function ToIntOrNull(s: string): (r: Option<Int32>)
  {
    if s == [] then None
    else
      var negative := s[0] == '-';
      var digits := if s[0] == '-' || s[0] == '+' then s[1..] else s;
      if digits == [] || !AllDigits(digits) then None
      else
        var v: int := if negative then -(DigitsValue(digits) as int) else DigitsValue(digits);
        if MinInt32 <= v <= MaxInt32 then Some(v) else None
  }

  /** Decimal digits of a natural number, without leading zeros. */
  function NatToString(n: nat): (s: string)
    ensures s != [] && AllDigits(s)
  {
    if n < 10 then [DigitChar(n)] else NatToString(n / 10) + [DigitChar(n % 10)]
  }

  /** `Int.toString()`. */
  function IntToString(n: Int32): string {
    if n < 0 then "-" + NatToString(-(n as int)) else NatToString(n)
  }

  lemma {:induction false} NatToStringValue(n: nat)
    ensures DigitsValue(NatToString(n)) == n
  {
    var s := NatToString(n);
    if n < 10 {
      assert s[..|s| - 1] == [];
    } else {
      NatToStringValue(n / 10);
      assert s[..|s| - 1] == NatToString(n / 10);
    }
  }

  /** Printing an `Int` and parsing it back gives the same `Int`. */
  lemma ParseIntToString(n: Int32)
    ensures ToIntOrNull(IntToString(n)) == Some(n)
  {
    var magnitude: nat := if n < 0 then -(n as int) else n;
    var digits := NatToString(magnitude);
    NatToStringValue(magnitude);
    if n < 0 {
      assert IntToString(n)[1..] == digits;
    } else {
      assert DigitValue(digits[0]) < 10;
      assert IntToString(n)[0] != '-' && IntToString(n)[0] != '+';
    }
  }

  /** Text that is not a sign followed by digits does not parse. */
  lemma NonNumeralIsNull(s: string)
    requires exists i | 0 <= i < |s| :: !IsDigit(s[i]) && !(i == 0 && (s[i] == '-' || s[i] == '+'))
    ensures ToIntOrNull(s) == None
  {
    var i :| 0 <= i < |s| && !IsDigit(s[i]) && !(i == 0 && (s[i] == '-' || s[i] == '+'));
    if s[0] == '-' || s[0] == '+' {
      assert s[1..][i - 1] == s[i];
    }
  }

  /** Every number that parses is the value of its digits, with the sign applied. */
  lemma ParsedDigitsValue(s: string)
    requires AllDigits(s) && ToIntOrNull(s).Some?
    ensures ToIntOrNull(s).value == DigitsValue(s)
  {
    assert s[0] != '-' && s[0] != '+';
  }
}
