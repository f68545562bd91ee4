/**
 * Positional numerals as the client writes and reads them: `{n:X}` (uppercase
 * hexadecimal, no prefix), `{b:02X}` (two-digit byte), `str(n)` for an integer,
 * and `int(t, 16)` restricted to plain hexadecimal digit strings.
 */
module Numerals {
  import opened Wrappers

  /** A digit Python's `int(t, 16)` accepts: 0-9 and either case of A-F. */
  predicate IsHexDigit(c: char)
  {
    '0' <= c <= '9' || 'A' <= c <= 'F' || 'a' <= c <= 'f'
  }

  /** A digit the `X` format produces: 0-9 and uppercase A-F. */
  predicate IsUpperHexDigit(c: char)
  {
    '0' <= c <= '9' || 'A' <= c <= 'F'
  }

  function DigitValue(c: char): (v: nat)
    requires IsHexDigit(c)
    ensures v < 16
    ensures '0' <= c <= '9' <==> v < 10
  {
    if '0' <= c <= '9' then c as int - '0' as int
    else if 'A' <= c <= 'F' then c as int - 'A' as int + 10
    else c as int - 'a' as int + 10
  }

  /** The uppercase digit for d; reading it back gives d. */
  function DigitChar(d: nat): (c: char)
    requires d < 16
    ensures IsUpperHexDigit(c) && DigitValue(c) == d
  {
    if d < 10 then ('0' as int + d) as char else ('A' as int + d - 10) as char
  }

  predicate IsDigitIn(c: char, base: nat)
  {
    IsHexDigit(c) && DigitValue(c) < base
  }

  /** A non-empty string of digits of the given base. */
  predicate IsNumeral(t: string, base: nat)
  {
    |t| > 0 && forall i :: 0 <= i < |t| ==> IsDigitIn(t[i], base)
  }

  /** The value of a digit string, most significant digit first. */
  function ValueOf(t: string, base: nat): nat
    requires forall i :: 0 <= i < |t| ==> IsHexDigit(t[i])
  {
    if t == [] then 0 else base * ValueOf(t[..|t| - 1], base) + DigitValue(t[|t| - 1])
  }

  /**
   * The numeral of n in the given base: uppercase digits, most significant
   * first, and a leading zero only for n == 0 itself.
   */
  function Digits(n: nat, base: nat): (r: string)
    requires 2 <= base <= 16
    ensures IsNumeral(r, base)
    ensures forall i :: 0 <= i < |r| ==> IsUpperHexDigit(r[i])
    ensures r[0] == '0' <==> n == 0
    decreases n
  {
    if n < base then [DigitChar(n)]
    else
      DivModBase(n, base);
      Digits(n / base, base) + [DigitChar(n % base)]
  }

  lemma DivModBase(n: nat, base: nat)
    requires 2 <= base <= n
    ensures 1 <= n / base < n && n % base < base
    ensures n == base * (n / base) + n % base
  {
  }

  lemma {:induction false} DigitsRoundTrip(n: nat, base: nat)
    requires 2 <= base <= 16
    ensures ValueOf(Digits(n, base), base) == n
    decreases n
  {
    if n >= base {
      var q, d := n / base, n % base;
      DivModBase(n, base);
      var r := Digits(n, base);
      assert r == Digits(q, base) + [DigitChar(d)];
      assert r[..|r| - 1] == Digits(q, base);
      DigitsRoundTrip(q, base);
      assert ValueOf(r, base) == base * q + d;
    }
  }

  /** `f"{n:X}"` for n >= 0. */
  function HexUpper(n: nat): (r: string)
  {
    Digits(n, 16)
  }

  /**
   * `int(t, 16)` on a whitespace-free token: the value of a non-empty string
   * of hexadecimal digits of either case, and None where Python raises.
   */
  function ParseHexToken(t: string): (r: Option<nat>)
    ensures r.Some? <==> IsNumeral(t, 16)
  {
    if IsNumeral(t, 16) then Some(ValueOf(t, 16)) else None
  }

  /** The address written by `{address:X}` reads back as the address. */
  lemma HexUpperRoundTrip(n: nat)
    ensures ParseHexToken(HexUpper(n)) == Some(n)
  {
    DigitsRoundTrip(n, 16);
  }

  /** Left-pads s with '0' up to width characters, as a `0<width>` format does. */
  function ZeroPad(s: string, width: nat): (r: string)
    ensures |r| == if |s| < width then width else |s|
  {
    if |s| < width then seq(width - |s|, _ => '0') + s else s
  }

  /** `f"{b:02X}"` for a byte: the hexadecimal numeral padded to two digits. */
  function HexByte(b: nat): string
    requires b < 256
  {
    ZeroPad(HexUpper(b), 2)
  }

  /**
   * A byte is always written as exactly two uppercase digits, its high
   * nibble and then its low nibble; no byte needs a third digit.
   */
  lemma HexByteDigits(b: nat)
    requires b < 256
    ensures HexByte(b) == [DigitChar(b / 16), DigitChar(b % 16)]
  {
    if b < 16 {
      assert HexUpper(b) == [DigitChar(b)];
      assert DigitChar(0) == '0';
      assert seq(1, _ => '0') + [DigitChar(b)] == ['0', DigitChar(b)];
    } else {
      DivModBase(b, 16);
      assert HexUpper(b) == Digits(b / 16, 16) + [DigitChar(b % 16)];
      assert Digits(b / 16, 16) == [DigitChar(b / 16)];
    }
  }

  /** Reading a two-digit byte back as hexadecimal gives the byte. */
  lemma HexByteRoundTrip(b: nat)
    requires b < 256
    ensures ParseHexToken(HexByte(b)) == Some(b)
  {
    HexByteDigits(b);
    var hi, lo := DigitChar(b / 16), DigitChar(b % 16);
    var h := [hi, lo];
    assert h[..1] == [hi] && [hi][..0] == [];
    assert ValueOf([hi], 16) == DigitValue(hi);
    assert ValueOf(h, 16) == 16 * (b / 16) + b % 16;
  }

  /** `str(n)` for a Python int: an optional '-' followed by decimal digits. */
  function DecimalText(n: int): (r: string)
  {
    if n < 0 then "-" + Digits(-n, 10) else Digits(n, 10)
  }

  /** Reads an optionally negative decimal numeral; None for anything else. */
  function ParseDecimal(s: string): (r: Option<int>)
  {
    if |s| > 0 && s[0] == '-' then
      (if IsNumeral(s[1..], 10) then Some(0 - ValueOf(s[1..], 10)) else None)
    else if IsNumeral(s, 10) then Some(ValueOf(s, 10))
    else None
  }

  /** The size written into a read request reads back as that size. */
  lemma DecimalRoundTrip(n: int)
    ensures ParseDecimal(DecimalText(n)) == Some(n)
  {
    if n < 0 {
      var d := Digits(-n, 10);
      assert DecimalText(n) == "-" + d;
      assert ("-" + d)[1..] == d;
      DigitsRoundTrip(-n, 10);
    } else {
      var d := Digits(n, 10);
      assert IsUpperHexDigit(d[0]);
      DigitsRoundTrip(n, 10);
    }
  }
}
