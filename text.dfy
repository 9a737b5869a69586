/** Character classes of the C ("ASCII") locale, the integer-literal check the
    command validator uses, and the decimal conversions the firmware relies on
    (std::stoi for Int arguments, std::to_string in the button notifications),
    plus C++'s truncating integer division. */
module Text {

  /** isspace in the C locale: space, tab, newline, vertical tab, form feed, carriage return. */
  predicate IsSpace(c: char) {
    c == ' ' || c == '\t' || c == '\n' || c == '\U{000B}' || c == '\U{000C}' || c == '\r'
  }

  /** isdigit in the C locale. */
  predicate IsDigit(c: char) {
    '0' <= c <= '9'
  }

  /** isalnum in the C locale. */
  predicate IsAlnum(c: char) {
    IsDigit(c) || 'a' <= c <= 'z' || 'A' <= c <= 'Z'
  }

  /** iscmdchar: the characters a command name may be made of. */
  predicate IsCmdChar(c: char) {
    IsAlnum(c) || c == '_'
  }

  predicate AllDigits(s: string) {
    forall i :: 0 <= i < |s| ==> IsDigit(s[i])
  }

  /** is_number: the empty string passes; otherwise one leading '-' is skipped
      and everything after it must be a digit. Its meaning: every character is
      a digit, except that the very first one may be a minus sign. In
      particular "" and "-" are accepted. */
  function IsNumber(s: string): (b: bool)
    ensures b <==> forall i :: 0 <= i < |s| ==> IsDigit(s[i]) || (i == 0 && s[i] == '-')
  {
    if s == [] then true
    else
      var rest := if s[0] == '-' then s[1..] else s;
      assert forall i :: 0 < i < |s| && s[0] == '-' ==> s[i] == rest[i - 1];
      AllDigits(rest)
  }

  /** An argument std::stoi can convert: is_number holds and at least one digit
      is present (stoi throws on "" and on "-"). */
  predicate IsNumeral(s: string) {
    IsNumber(s) && s != [] && s != "-"
  }

  function DigitValue(c: char): (d: nat)
    requires IsDigit(c)
    ensures d < 10
  {
    (c as int) - ('0' as int)
  }

  function DigitChar(d: nat): (c: char)
    requires d < 10
    ensures IsDigit(c) && DigitValue(c) == d
  {
    (('0' as int) + d) as char
  }

  /** The value of a string of decimal digits, most significant first. */
  function DigitsValue(s: string): nat
    requires AllDigits(s)
  {
    if s == [] then 0
    else DigitsValue(s[..|s| - 1]) * 10 + DigitValue(s[|s| - 1])
  }

  /** std::stoi on a string that passed is_number and has a digit:
      its ordinary decimal value, negated after a leading minus sign.
      The range of int is not modelled. */
  function ParseInt(s: string): (n: int)
    requires IsNumeral(s)
    ensures n < 0 ==> s[0] == '-'
    ensures s[0] == '-' ==> n <= 0
  {
    if s[0] == '-' then
      assert AllDigits(s[1..]) by {
        forall i | 0 <= i < |s| - 1 ensures IsDigit(s[1..][i]) { assert s[1..][i] == s[i + 1]; }
      }
      -(DigitsValue(s[1..]) as int)
    else DigitsValue(s)
  }

  /** std::to_string of a non-negative value: its digits without leading zeros. */
  function FormatNat(n: nat): (s: string)
    ensures AllDigits(s) && s != []
  {
    if n < 10 then [DigitChar(n)]
    else FormatNat(n / 10) + [DigitChar(n % 10)]
  }

  /** std::to_string of an int: a minus sign before the digits of a negative value. */
  function FormatInt(n: int): string {
    if n < 0 then "-" + FormatNat(-n) else FormatNat(n)
  }

  lemma {:induction false} DigitsOfFormatNat(n: nat)
    ensures DigitsValue(FormatNat(n)) == n
  {
    if n >= 10 {
      var s := FormatNat(n);
      assert s[..|s| - 1] == FormatNat(n / 10);
      DigitsOfFormatNat(n / 10);
    }
  }

  /** Round trip: std::stoi reads back what std::to_string wrote. */
  lemma ParseFormatInt(n: int)
    ensures IsNumeral(FormatInt(n))
    ensures ParseInt(FormatInt(n)) == n
  {
    var s := FormatInt(n);
    if n < 0 {
      assert s[1..] == FormatNat(-n);
      DigitsOfFormatNat(-n);
    } else {
      DigitsOfFormatNat(n);
    }
  }

  /** C++ integer division with a positive divisor: the quotient is truncated
      toward zero, so the remainder takes the sign of the dividend. */
  function TruncDiv(a: int, d: int): (q: int)
    requires d > 0
    ensures a >= 0 ==> 0 <= a - q * d < d
    ensures a < 0 ==> -d < a - q * d <= 0
  {
    if a >= 0 then a / d else -((-a) / d)
  }
}
