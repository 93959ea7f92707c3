/**
 * Decimal digits: the zero-padded fields of `strftime` and `isoformat`, and
 * the `{id}` of an f-string, together with reading them back.
 */
module Digits {

  /** 10^n */
  function Pow10(n: nat): (p: nat)
    ensures p >= 1
  {
    if n == 0 then 1 else 10 * Pow10(n - 1)
  }

  predicate IsDigit(c: char)
  {
    '0' <= c <= '9'
  }

  function DigitChar(d: int): (c: char)
    requires 0 <= d <= 9
    ensures IsDigit(c)
  {
    ('0' as int + d) as char
  }

  /** `n` written in exactly `width` decimal digits, zero-padded on the left (the `%02d` of strftime). */
  function PadDigits(n: int, width: nat): (s: string)
    requires 0 <= n < Pow10(width)
    ensures |s| == width
    ensures forall i :: 0 <= i < |s| ==> IsDigit(s[i])
  {
    if width == 0 then [] else PadDigits(n / 10, width - 1) + [DigitChar(n % 10)]
  }

  /** The value of a string of decimal digits. */
  function ReadDigits(s: string): (n: int)
  {
    if s == [] then 0 else 10 * ReadDigits(s[..|s| - 1]) + (s[|s| - 1] as int - '0' as int)
  }

  /** Reading a padded number gives the number back. */
  lemma {:induction false} ReadPadDigits(n: int, width: nat)
    requires 0 <= n < Pow10(width)
    ensures ReadDigits(PadDigits(n, width)) == n
  {
    if width > 0 {
      var s := PadDigits(n, width);
      assert s[..|s| - 1] == PadDigits(n / 10, width - 1);
      ReadPadDigits(n / 10, width - 1);
    }
  }

  /** Every character of `s[lo..hi]` is a decimal digit. */
  predicate DigitsAt(s: string, lo: int, hi: int)
    requires 0 <= lo <= hi <= |s|
  {
    forall i :: lo <= i < hi ==> IsDigit(s[i])
  }

  /** `str(n)` for a natural number: its decimal digits, no leading zero. */
  function NatString(n: nat): (s: string)
    ensures |s| > 0 && forall i :: 0 <= i < |s| ==> IsDigit(s[i])
    ensures |s| > 1 ==> s[0] != '0'
  {
    if n < 10 then [DigitChar(n)] else NatString(n / 10) + [DigitChar(n % 10)]
  }

  /** Reading the digits of `str(n)` gives n back. */
  lemma {:induction false} ReadNatString(n: nat)
    ensures ReadDigits(NatString(n)) == n
  {
    var s := NatString(n);
    if n < 10 {
      assert s[..|s| - 1] == [];
    } else {
      assert s[..|s| - 1] == NatString(n / 10);
      ReadNatString(n / 10);
    }
  }

  /** `str(n)` for any integer: a minus sign before the digits of a negative number. */
  function IntString(n: int): (s: string)
  {
    if n < 0 then "-" + NatString(-n) else NatString(n)
  }

  /** The integer a string written by `IntString` denotes. */
  function ReadInt(s: string): (n: int)
  {
    if s != [] && s[0] == '-' then -ReadDigits(s[1..]) else ReadDigits(s)
  }

  /** `IntString` is read back exactly. */
  lemma IntStringReadsBack(n: int)
    ensures ReadInt(IntString(n)) == n
  {
    if n < 0 {
      assert IntString(n)[1..] == NatString(-n);
      ReadNatString(-n);
    } else {
      ReadNatString(n);
    }
  }
}
