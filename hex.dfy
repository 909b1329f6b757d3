/**
 * Unpadded lower-case hexadecimal rendering of a non-negative integer, as a
 * C++ output stream produces it after `std::hex` (no "0x" base prefix, no
 * leading zeros, "0" for zero), and the digit-string value that inverts it.
 */
module Hex {

  predicate IsHexDigit(c: char) {
    '0' <= c <= '9' || 'a' <= c <= 'f'
  }

  predicate IsHexString(s: string) {
    forall i :: 0 <= i < |s| ==> IsHexDigit(s[i])
  }

  /** A rendering as std::hex writes it: non-empty, digits only, no leading zero except "0" itself. */
  predicate IsCanonical(s: string) {
    |s| >= 1 && IsHexString(s) && (s[0] == '0' ==> |s| == 1)
  }

  function DigitValue(c: char): (d: nat)
    requires IsHexDigit(c)
    ensures d < 16
  {
    if c <= '9' then c as int - '0' as int else c as int - 'a' as int + 10
  }

  function DigitChar(d: nat): (c: char)
    requires d < 16
    ensures IsHexDigit(c) && DigitValue(c) == d
  {
    if d < 10 then ('0' as int + d) as char else ('a' as int + d - 10) as char
  }

  /** The digits of `n` in base 16, most significant first. */
  function ToHex(n: nat): (s: string)
    ensures IsCanonical(s)
    ensures s[0] == '0' <==> n == 0
    decreases n
  {
    if n < 16 then [DigitChar(n)] else ToHex(n / 16) + [DigitChar(n % 16)]
  }

  /** The number a string of hexadecimal digits denotes. */
  function HexValue(s: string): nat
    requires IsHexString(s)
    decreases |s|
  {
    if s == [] then 0 else 16 * HexValue(s[..|s| - 1]) + DigitValue(s[|s| - 1])
  }

  /** Reading back what ToHex wrote gives the number back. */
  lemma {:induction false} HexValueOfToHex(n: nat)
    ensures HexValue(ToHex(n)) == n
    decreases n
  {
    var s := ToHex(n);
    if n >= 16 {
      HexValueOfToHex(n / 16);
      assert s[..|s| - 1] == ToHex(n / 16);
    }
  }

  lemma {:induction false} LeadingDigitPositive(s: string)
    requires IsCanonical(s) && s[0] != '0'
    ensures HexValue(s) > 0
    decreases |s|
  {
    if |s| > 1 {
      var p := s[..|s| - 1];
      assert p[0] == s[0];
      LeadingDigitPositive(p);
    } else {
      assert s[..0] == [];
    }
  }

  /** Every canonical digit string is what ToHex writes for its value: the rendering is one-to-one and onto. */
  lemma {:induction false} ToHexOfHexValue(s: string)
    requires IsCanonical(s)
    ensures ToHex(HexValue(s)) == s
    decreases |s|
  {
    var p := s[..|s| - 1];
    var c := s[|s| - 1];
    assert s == p + [c];
    if |s| == 1 {
      assert p == [];
      assert DigitChar(DigitValue(c)) == c;
    } else {
      assert p[0] == s[0];
      assert s[0] != '0';
      LeadingDigitPositive(p);
      ToHexOfHexValue(p);
      var n := HexValue(s);
      assert n == 16 * HexValue(p) + DigitValue(c);
      assert n / 16 == HexValue(p) && n % 16 == DigitValue(c);
      assert DigitChar(DigitValue(c)) == c;
    }
  }
}
