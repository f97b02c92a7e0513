/** Integer text as the converter reads and writes it: Python's `int(s, 16)`
    for message identifiers, `int(s)` for DLC, start bit and signal length,
    and the decimal rendering an f-string gives an `int`. Only plain digit
    strings are modelled (no surrounding whitespace, no `_` separators). */
module Numerals {
  import opened Wrappers

  predicate IsDecimalDigit(c: char) {
    '0' <= c <= '9'
  }

  predicate IsHexDigit(c: char) {
    '0' <= c <= '9' || 'a' <= c <= 'f' || 'A' <= c <= 'F'
  }

  function DecimalDigitValue(c: char): (d: nat)
    requires IsDecimalDigit(c)
    ensures d < 10
  {
    c as int - '0' as int
  }

  function HexDigitValue(c: char): (d: nat)
    requires IsHexDigit(c)
    ensures d < 16
    ensures IsDecimalDigit(c) ==> d == DecimalDigitValue(c)
  {
    if '0' <= c <= '9' then c as int - '0' as int
    else if 'a' <= c <= 'f' then c as int - 'a' as int + 10
    else c as int - 'A' as int + 10
  }

  function DecimalChar(d: nat): (c: char)
    requires d < 10
    ensures IsDecimalDigit(c) && DecimalDigitValue(c) == d
  {
    ('0' as int + d) as char
  }

  /** Lower-case, as Python's `hex` writes digits. */
  function HexChar(d: nat): (c: char)
    requires d < 16
    ensures IsHexDigit(c) && HexDigitValue(c) == d
  {
    if d < 10 then ('0' as int + d) as char else ('a' as int + d - 10) as char
  }

  /** The value of a non-empty string of decimal digits, read most
      significant digit first; None for the empty string or any other
      character. */
  function DecimalDigits(s: string): (r: Option<nat>)
    ensures r.Some? <==> |s| > 0 && forall i :: 0 <= i < |s| ==> IsDecimalDigit(s[i])
    decreases |s|
  {
    if |s| == 0 || !IsDecimalDigit(s[|s| - 1]) then None
    else if |s| == 1 then Some(DecimalDigitValue(s[0]))
    else
      var high :- DecimalDigits(s[..|s| - 1]);
      Some(10 * high + DecimalDigitValue(s[|s| - 1]))
  }

  /** The value of a non-empty string of hexadecimal digits (either case). */
  function HexDigits(s: string): (r: Option<nat>)
    ensures r.Some? <==> |s| > 0 && forall i :: 0 <= i < |s| ==> IsHexDigit(s[i])
    decreases |s|
  {
    if |s| == 0 || !IsHexDigit(s[|s| - 1]) then None
    else if |s| == 1 then Some(HexDigitValue(s[0]))
    else
      var high :- HexDigits(s[..|s| - 1]);
      Some(16 * high + HexDigitValue(s[|s| - 1]))
  }

  /** Python's `int(s, 16)`: an optional `0x`/`0X` prefix, then at least one
      hexadecimal digit. So a bare `0x` is rejected. */
  function IntBase16(s: string): (r: Option<nat>)
    ensures |s| >= 2 && s[..2] == "0x" ==> r == HexDigits(s[2..])
    ensures r.Some? ==> |s| > 0
  {
    if |s| >= 2 && (s[..2] == "0x" || s[..2] == "0X") then HexDigits(s[2..]) else HexDigits(s)
  }

  /** Python's `int(s)` on a string: an optional sign, then at least one
      decimal digit. */
  function ParseDecimal(s: string): (r: Option<int>)
    ensures r.Some? ==> |s| > 0
    ensures |s| > 0 && IsDecimalDigit(s[0]) ==> r == (match DecimalDigits(s) case None => None case Some(n) => Some(n as int))
  {
    if |s| > 0 && s[0] == '-' then
      var n :- DecimalDigits(s[1..]);
      Some(-(n as int))
    else if |s| > 0 && s[0] == '+' then
      var n :- DecimalDigits(s[1..]);
      Some(n as int)
    else
      var n :- DecimalDigits(s);
      Some(n as int)
  }

  /** How an f-string renders a natural number: decimal digits, no leading
      zero except for 0 itself. */
  function NatToDecimal(n: nat): (r: string)
    ensures |r| > 0
    ensures forall i :: 0 <= i < |r| ==> IsDecimalDigit(r[i])
    ensures r[0] == '0' ==> n == 0 && r == "0"
    decreases n
  {
    if n < 10 then [DecimalChar(n)] else NatToDecimal(n / 10) + [DecimalChar(n % 10)]
  }

  /** How an f-string renders an int: a minus sign exactly for negative
      numbers, then the decimal digits of the magnitude, with no leading
      zero except for 0 itself. */
  function IntToDecimal(i: int): (r: string)
    ensures |r| > (if i < 0 then 1 else 0)
    ensures r[0] == '-' <==> i < 0
    ensures forall k :: (if i < 0 then 1 else 0) <= k < |r| ==> IsDecimalDigit(r[k])
    ensures r[if i < 0 then 1 else 0] == '0' ==> i == 0 && r == "0"
  {
    if i < 0 then "-" + NatToDecimal(-i) else NatToDecimal(i)
  }

  /** Lower-case hexadecimal digits without prefix: the canonical form of
      the digits of a `0x…` identifier (the sheet may also write upper-case
      digits or leading zeros). */
  function NatToHex(n: nat): (r: string)
    ensures |r| > 0
    ensures forall i :: 0 <= i < |r| ==> IsHexDigit(r[i])
    ensures r[0] == '0' ==> n == 0 && r == "0"
    decreases n
  {
    if n < 16 then [HexChar(n)] else NatToHex(n / 16) + [HexChar(n % 16)]
  }

  /** Reading back the decimal rendering yields the number rendered. */
  lemma {:induction false} DecimalRoundTrip(n: nat)
    ensures DecimalDigits(NatToDecimal(n)) == Some(n)
    decreases n
  {
    if n >= 10 {
      var s := NatToDecimal(n / 10);
      DecimalRoundTrip(n / 10);
      var t := s + [DecimalChar(n % 10)];
      assert t[..|t| - 1] == s;
    }
  }

  /** `int(str(i)) == i` for every int. */
  lemma {:induction false} IntDecimalRoundTrip(i: int)
    ensures ParseDecimal(IntToDecimal(i)) == Some(i)
  {
    if i < 0 {
      DecimalRoundTrip(-i);
      assert IntToDecimal(i)[1..] == NatToDecimal(-i);
    } else {
      DecimalRoundTrip(i);
    }
  }

  /** Reading back the hexadecimal rendering yields the number rendered. */
  lemma {:induction false} HexRoundTrip(n: nat)
    ensures HexDigits(NatToHex(n)) == Some(n)
    decreases n
  {
    if n >= 16 {
      var s := NatToHex(n / 16);
      HexRoundTrip(n / 16);
      var t := s + [HexChar(n % 16)];
      assert t[..|t| - 1] == s;
    }
  }

  /** Every natural number written as `0x` followed by its hexadecimal
      digits is read back by `int(·, 16)` as that number. */
  lemma PrefixedHexRoundTrip(n: nat)
    ensures IntBase16("0x" + NatToHex(n)) == Some(n)
  {
    var s := "0x" + NatToHex(n);
    assert s[..2] == "0x" && s[2..] == NatToHex(n);
    HexRoundTrip(n);
  }

  /** A digit string read as hexadecimal and rendered in decimal reads back,
      as decimal, to the same number: the identifier conversion loses nothing. */
  lemma HexToDecimalPreservesValue(s: string)
    requires IntBase16(s).Some?
    ensures DecimalDigits(NatToDecimal(IntBase16(s).value)) == IntBase16(s)
  {
    DecimalRoundTrip(IntBase16(s).value);
  }

  /** The worked example: `0x1A3` is 419, written `419`. */
  lemma Example0x1A3()
    ensures IntBase16("0x1A3") == Some(419)
    ensures NatToDecimal(419) == "419"
  {
    var s := "0x1A3";
    assert s[..2] == "0x" && s[2..] == "1A3";
    var t := "1A3";
    assert t[..2] == "1A" && t[..2][..1] == "1";
    assert HexDigits("1") == Some(1);
    assert HexDigits("1A") == Some(26);
    assert NatToDecimal(41) == "41";
  }

  /** `int("0x", 16)` raises: a prefix without digits is not a number. */
  lemma BarePrefixRejected()
    ensures IntBase16("0x") == None
  {
    var s := "0x";
    assert s[..2] == "0x" && s[2..] == "";
  }
}
