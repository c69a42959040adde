/**
 * Decimal numerals as the C library reads them (`strtoul`, `strtol`,
 * `atoi`, base 10) and writes them (`%zu`, `%d`), with the integer widths
 * of the platform the server runs on (64-bit `long`, 32-bit `int`).
 */
module Numeric {
  import opened CString

  const ULongMax: int := 0xFFFF_FFFF_FFFF_FFFF
  const LongMax: int := 0x7FFF_FFFF_FFFF_FFFF
  const IntMax: int := 0x7FFF_FFFF

  predicate IsDigit(c: char) {
    '0' <= c <= '9'
  }

  predicate AllDigits(s: string) {
    forall i :: 0 <= i < |s| ==> IsDigit(s[i])
  }

  function DigitValue(c: char): nat
    requires IsDigit(c)
  {
    c as int - '0' as int
  }

  function DigitChar(d: nat): (c: char)
    requires d < 10
    ensures IsDigit(c) && DigitValue(c) == d
  {
    ('0' as int + d) as char
  }

  /** The longest prefix of `s` made of decimal digits. */
  function DigitPrefix(s: string): (r: string)
    ensures AllDigits(r)
  {
    if s != [] && IsDigit(s[0]) then [s[0]] + DigitPrefix(s[1..]) else []
  }

  /** The digit run is a prefix of `s` and stops at the first character that is not a digit. */
  lemma {:induction false} DigitPrefixSpec(s: string)
    ensures var r := DigitPrefix(s);
      |r| <= |s| && r == s[..|r|] && (|r| < |s| ==> !IsDigit(s[|r|]))
  {
    if s != [] && IsDigit(s[0]) {
      DigitPrefixSpec(s[1..]);
    }
  }

  /** The number a string of digits denotes, most significant digit first. */
  function DecimalValue(d: string): nat
    requires AllDigits(d)
    decreases |d|
  {
    if d == [] then 0 else DecimalValue(d[..|d| - 1]) * 10 + DigitValue(d[|d| - 1])
  }

  /** `%zu` / `%d` of a non-negative number: its shortest decimal numeral. */
  function Decimal(n: nat): (r: string)
    ensures |r| >= 1 && AllDigits(r)
  {
    if n < 10 then [DigitChar(n)] else Decimal(n / 10) + [DigitChar(n % 10)]
  }

  /** Reading back a formatted number gives the number. */
  lemma {:induction false} DecimalValueOfDecimal(n: nat)
    ensures DecimalValue(Decimal(n)) == n
  {
    if n >= 10 {
      var d := Decimal(n);
      assert d[..|d| - 1] == Decimal(n / 10);
      DecimalValueOfDecimal(n / 10);
    }
  }

  /** The part of a string that `strtol`/`strtoul` consume in base 10. */
  datatype Numeral = Numeral(negative: bool, digits: string)

  /** Leading blanks are skipped, one optional sign is taken, then the longest run of digits. */
  function ScanNumeral(s: string): (n: Numeral)
    ensures AllDigits(n.digits)
  {
    var t := SkipSpace(s);
    if t != [] && (t[0] == '-' || t[0] == '+') then Numeral(t[0] == '-', DigitPrefix(t[1..]))
    else Numeral(false, DigitPrefix(t))
  }

  /**
   * `strtoul(s, NULL, 10)`: an unsigned 64-bit result; a value that does
   * not fit saturates at ULONG_MAX; a minus sign negates modulo 2^64; no
   * digits at all gives 0.
   */
  function Strtoul(s: string): (r: nat)
    ensures r <= ULongMax
    ensures ScanNumeral(s).digits == [] ==> r == 0
    ensures DecimalValue(ScanNumeral(s).digits) > ULongMax ==> r == ULongMax
    ensures !ScanNumeral(s).negative && DecimalValue(ScanNumeral(s).digits) <= ULongMax ==>
      r == DecimalValue(ScanNumeral(s).digits)
    ensures ScanNumeral(s).negative && 0 < DecimalValue(ScanNumeral(s).digits) <= ULongMax ==>
      r == ULongMax + 1 - DecimalValue(ScanNumeral(s).digits)
  {
    var n := ScanNumeral(s);
    var v := DecimalValue(n.digits);
    if v > ULongMax then ULongMax
    else if n.negative then (ULongMax + 1 - v) % (ULongMax + 1)
    else v
  }

  /** `strtol(s, NULL, 10)`: a signed 64-bit result, saturating at LONG_MIN and LONG_MAX. */
  function Strtol(s: string): (r: int)
    ensures -LongMax - 1 <= r <= LongMax
    ensures ScanNumeral(s).digits == [] ==> r == 0
    ensures var v := DecimalValue(ScanNumeral(s).digits);
      if ScanNumeral(s).negative then (v <= LongMax + 1 ==> r + v == 0) && (v > LongMax + 1 ==> r == -LongMax - 1)
      else (v <= LongMax ==> r == v) && (v > LongMax ==> r == LongMax)
  {
    var n := ScanNumeral(s);
    var v: int := DecimalValue(n.digits);
    if n.negative then (if v > LongMax + 1 then -LongMax - 1 else -v)
    else if v > LongMax then LongMax
    else v
  }

  /** The conversion of a wider integer to a 32-bit `int`: the low 32 bits, read as two's complement. */
  function Wrap32(x: int): (r: int)
    ensures -IntMax - 1 <= r <= IntMax
    ensures (r - x) % 0x1_0000_0000 == 0
    ensures -IntMax - 1 <= x <= IntMax ==> r == x
  {
    var m := x % 0x1_0000_0000;
    if m > IntMax then m - 0x1_0000_0000 else m
  }

  /** `atoi` as glibc implements it: `(int) strtol(s, NULL, 10)`. */
  function Atoi(s: string): (r: int)
    ensures -IntMax - 1 <= r <= IntMax
  {
    Wrap32(Strtol(s))
  }

  /** The digits of a numeral stop at the first character that is not a digit. */
  lemma {:induction false} DigitPrefixOfNumeral(d: string, rest: string)
    requires AllDigits(d)
    requires rest == [] || !IsDigit(rest[0])
    ensures DigitPrefix(d + rest) == d
  {
    if d != [] {
      assert (d + rest)[1..] == d[1..] + rest;
      DigitPrefixOfNumeral(d[1..], rest);
    } else {
      assert d + rest == rest;
    }
  }

  /** Blanks, a numeral and a non-digit: the numeral is exactly what is scanned. */
  lemma ScanNumeralOfDecimal(ws: string, n: nat, rest: string)
    requires forall i :: 0 <= i < |ws| ==> IsSpace(ws[i])
    requires rest == [] || !IsDigit(rest[0])
    ensures ScanNumeral(ws + Decimal(n) + rest) == Numeral(false, Decimal(n))
  {
    var d := Decimal(n);
    assert ws + d + rest == ws + (d + rest);
    assert IsDigit((d + rest)[0]);
    SkipSpacePrefix(ws, d + rest);
    DigitPrefixOfNumeral(d, rest);
  }

  /**
   * `strtoul` reads back any number `%zu` wrote, whatever blanks precede
   * it and whatever non-digit follows it.
   */
  lemma StrtoulOfDecimal(ws: string, n: nat, rest: string)
    requires forall i :: 0 <= i < |ws| ==> IsSpace(ws[i])
    requires n <= ULongMax
    requires rest == [] || !IsDigit(rest[0])
    ensures Strtoul(ws + Decimal(n) + rest) == n
  {
    ScanNumeralOfDecimal(ws, n, rest);
    DecimalValueOfDecimal(n);
  }

  /** `atoi` reads back any `int`-sized number `%d` wrote. */
  lemma AtoiOfDecimal(n: nat)
    requires n <= IntMax
    ensures Atoi(Decimal(n)) == n
  {
    ScanNumeralOfDecimal([], n, []);
    assert [] + Decimal(n) + [] == Decimal(n);
    DecimalValueOfDecimal(n);
  }

  /** A value whose first non-blank character is neither a sign nor a digit reads as 0. */
  lemma StrtoulNonNumeric(s: string)
    requires SkipSpace(s) != [] && !IsDigit(SkipSpace(s)[0])
    requires SkipSpace(s)[0] != '-' && SkipSpace(s)[0] != '+'
    ensures Strtoul(s) == 0
  {
  }

  /**
   * A minus sign makes `strtoul` negate modulo 2^64: `-1`, with or without
   * blanks before it, reads as the largest `unsigned long`.
   */
  lemma StrtoulMinusOne(ws: string)
    requires forall i :: 0 <= i < |ws| ==> IsSpace(ws[i])
    ensures Strtoul(ws + "-1") == ULongMax
  {
    SkipSpacePrefix(ws, "-1");
    assert SkipSpace(ws + "-1") == "-1";
    assert "-1"[1..] == "1";
    assert DigitPrefix("1") == "1" by {
      DigitPrefixOfNumeral("1", []);
      assert "1" + [] == "1";
    }
    assert DecimalValue("1") == 1;
  }
}
