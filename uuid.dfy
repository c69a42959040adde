/**
 * `uuid4` (src/util.c): sixteen random octets, with the version and variant
 * bits fixed as section 5.4 of RFC 9562 prescribes, rendered as the
 * canonical 8-4-4-4-12 lowercase hexadecimal form. The random source is
 * outside the model: the octets are a parameter.
 */
module Uuid {

  /** `r[6] = (r[6] & 0x0F) | 0x40; r[8] = (r[8] & 0x3F) | 0x80;` */
  function FixBits(r: seq<bv8>): (f: seq<bv8>)
    requires |r| == 16
    ensures |f| == 16
    ensures forall i :: 0 <= i < 16 && i != 6 && i != 8 ==> f[i] == r[i]
    ensures f[6] >> 4 == 4 && f[6] & 0x0F == r[6] & 0x0F
    ensures f[8] >> 6 == 2 && f[8] & 0x3F == r[8] & 0x3F
  {
    r[6 := (r[6] & 0x0F) | 0x40][8 := (r[8] & 0x3F) | 0x80]
  }

  const HexDigits: string := "0123456789abcdef"

  predicate IsLowerHex(c: char) {
    '0' <= c <= '9' || 'a' <= c <= 'f'
  }

  function HexDigit(v: bv8): (c: char)
    requires v < 16
    ensures IsLowerHex(c) && HexValue(c) == v
  {
    HexDigits[v as int]
  }

  /** The inverse of `HexDigit`; a character that is no lowercase hexadecimal digit reads as 0. */
  function HexValue(c: char): bv8 {
    if '0' <= c <= '9' then (c as int - '0' as int) as bv8
    else if 'a' <= c <= 'f' then (c as int - 'a' as int + 10) as bv8
    else 0
  }

  /** `%02x`: two lowercase digits, high nibble first. */
  function Hex2(b: bv8): string {
    [HexDigit(b >> 4), HexDigit(b & 0x0F)]
  }

  /** The `%02x` renderings of the octets, one after the other. */
  function Hex(bs: seq<bv8>): (s: string)
    ensures |s| == 2 * |bs|
    ensures forall j :: 0 <= j < |s| ==> IsLowerHex(s[j])
  {
    if bs == [] then [] else Hex2(bs[0]) + Hex(bs[1..])
  }

  /** The octets a string of hexadecimal digit pairs spells. */
  function Unhex(s: string): seq<bv8>
    decreases |s|
  {
    if |s| < 2 then [] else [(HexValue(s[0]) << 4) | HexValue(s[1])] + Unhex(s[2..])
  }

  /** Decoding the hexadecimal rendering of octets gives back the octets. */
  lemma {:induction false} UnhexHex(bs: seq<bv8>)
    ensures Unhex(Hex(bs)) == bs
  {
    if bs != [] {
      var b := bs[0];
      assert Hex(bs)[2..] == Hex(bs[1..]);
      assert ((b >> 4) << 4) | (b & 0x0F) == b;
      UnhexHex(bs[1..]);
    }
  }

  predicate IsDashPosition(i: int) {
    i == 8 || i == 13 || i == 18 || i == 23
  }

  /** 36 characters, dashes exactly at 8, 13, 18 and 23, lowercase hex everywhere else. */
  predicate IsCanonical(s: string) {
    |s| == 36 && forall i :: 0 <= i < 36 ==> if IsDashPosition(i) then s[i] == '-' else IsLowerHex(s[i])
  }

  /** `snprintf(out, 37, "%02x%02x%02x%02x-%02x%02x-%02x%02x-%02x%02x-%02x...")` of sixteen octets. */
  function Render(f: seq<bv8>): (s: string)
    requires |f| == 16
    ensures IsCanonical(s)
  {
    Hex(f[..4]) + "-" + Hex(f[4..6]) + "-" + Hex(f[6..8]) + "-" + Hex(f[8..10]) + "-" + Hex(f[10..])
  }

  /** The session token and request id generator, with its random octets given. */
  function Uuid4(random: seq<bv8>): (s: string)
    requires |random| == 16
    ensures IsCanonical(s)
  {
    Render(FixBits(random))
  }

  /** The version digit reads 4, and the variant digit is one of 8, 9, a and b. */
  lemma Uuid4Marks(random: seq<bv8>)
    requires |random| == 16
    ensures Uuid4(random)[14] == '4'
    ensures Uuid4(random)[19] in {'8', '9', 'a', 'b'}
  {
    var f := FixBits(random);
    RenderMarkDigits(f);
    var v := f[8] >> 4;
    assert v == 8 || v == 9 || v == 10 || v == 11 by {
      assert f[8] >> 6 == 2;
    }
    assert HexDigits[4] == '4';
    assert HexDigits[v as int] in {'8', '9', 'a', 'b'};
  }

  /** The digits at offsets 14 and 19 are the high nibbles of octets 6 and 8. */
  lemma RenderMarkDigits(f: seq<bv8>)
    requires |f| == 16
    ensures Render(f)[14] == HexDigit(f[6] >> 4)
    ensures Render(f)[19] == HexDigit(f[8] >> 4)
  {
    var s := Render(f);
    Groups(Hex(f[..4]), Hex(f[4..6]), Hex(f[6..8]), Hex(f[8..10]), Hex(f[10..]));
    assert s[14] == s[14..18][0];
    assert s[19] == s[19..23][0];
  }

  /** The five groups of the canonical form sit at fixed offsets between the dashes. */
  lemma Groups(a: string, b: string, c: string, d: string, e: string)
    requires |a| == 8 && |b| == 4 && |c| == 4 && |d| == 4 && |e| == 12
    ensures var s := a + "-" + b + "-" + c + "-" + d + "-" + e;
      s[0..8] == a && s[9..13] == b && s[14..18] == c && s[19..23] == d && s[24..36] == e
  {
  }

  /** The octets a canonical UUID string spells, read group by group. */
  function UuidOctets(s: string): seq<bv8>
    requires IsCanonical(s)
  {
    Unhex(s[0..8]) + Unhex(s[9..13]) + Unhex(s[14..18]) + Unhex(s[19..23]) + Unhex(s[24..36])
  }

  /** Reading the canonical form back gives the sixteen octets it was rendered from. */
  lemma RenderRoundTrip(f: seq<bv8>)
    requires |f| == 16
    ensures UuidOctets(Render(f)) == f
  {
    var a, b, c, d, e := f[..4], f[4..6], f[6..8], f[8..10], f[10..];
    Groups(Hex(a), Hex(b), Hex(c), Hex(d), Hex(e));
    UnhexHex(a);
    UnhexHex(b);
    UnhexHex(c);
    UnhexHex(d);
    UnhexHex(e);
    RegroupOctets(f);
  }

  lemma RegroupOctets(f: seq<bv8>)
    requires |f| == 16
    ensures f == f[..4] + f[4..6] + f[6..8] + f[8..10] + f[10..]
  {
    assert f[..4] + f[4..6] == f[..6];
    assert f[..6] + f[6..8] == f[..8];
    assert f[..8] + f[8..10] == f[..10];
  }

  /**
   * The canonical form loses nothing but the six fixed bits: reading it back
   * gives the random octets with only the version and variant bits changed.
   */
  lemma Uuid4RoundTrip(random: seq<bv8>)
    requires |random| == 16
    ensures UuidOctets(Uuid4(random)) == FixBits(random)
  {
    RenderRoundTrip(FixBits(random));
  }
}
