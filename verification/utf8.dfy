/**
 * Standard UTF-8 as Java's `String.getBytes(UTF_8)` and
 * `new String(bytes, UTF_8)` apply it to UTF-16 strings.
 */
module Utf8 {
  import opened JavaLang

  predicate IsHighSurrogate(c: JChar) { 0xD800 <= c <= 0xDBFF }
  predicate IsLowSurrogate(c: JChar) { 0xDC00 <= c <= 0xDFFF }
  predicate IsSurrogate(c: JChar) { 0xD800 <= c <= 0xDFFF }

  /** The byte `getBytes` substitutes for a surrogate that is not part of a pair: '?'. */
  const REPLACEMENT_BYTE: uint8 := 0x3F
  /** The character `new String` decodes a malformed byte to: U+FFFD. */
  const REPLACEMENT_CHAR: JChar := 0xFFFD

  /** The code point a surrogate pair stands for. */
  function Supplementary(high: JChar, low: JChar): (cp: int)
    requires IsHighSurrogate(high) && IsLowSurrogate(low)
    ensures 0x1_0000 <= cp <= 0x10_FFFF
  {
    0x1_0000 + (high - 0xD800) * 0x400 + (low - 0xDC00)
  }

  /** The bytes of a code unit that is not a surrogate. */
  function UnitBytes(c: JChar): (r: seq<uint8>)
    requires !IsSurrogate(c)
    ensures 1 <= |r| <= 3
    ensures |r| == 1 <==> c < 0x80
  {
    if c < 0x80 then [c]
    else if c < 0x800 then [0xC0 + c / 64, 0x80 + c % 64]
    else [0xE0 + c / 4096, 0x80 + (c / 64) % 64, 0x80 + c % 64]
  }

  /** The four bytes of a supplementary code point. */
  function PairBytes(high: JChar, low: JChar): (r: seq<uint8>)
    requires IsHighSurrogate(high) && IsLowSurrogate(low)
    ensures |r| == 4
  {
    var cp := Supplementary(high, low);
    [0xF0 + cp / 0x4_0000, 0x80 + (cp / 0x1000) % 64, 0x80 + (cp / 64) % 64, 0x80 + cp % 64]
  }

  /** `s.getBytes(UTF_8)`: pairs become four bytes, lone surrogates become '?'. */
  function Encode(s: JString): (r: seq<uint8>)
    ensures |r| <= 3 * |s|
    decreases |s|
  {
    if s == [] then []
    else if |s| >= 2 && IsHighSurrogate(s[0]) && IsLowSurrogate(s[1]) then
      PairBytes(s[0], s[1]) + Encode(s[2..])
    else if IsSurrogate(s[0]) then [REPLACEMENT_BYTE] + Encode(s[1..])
    else UnitBytes(s[0]) + Encode(s[1..])
  }

  /** A string whose surrogates all come in pairs: what `getBytes` can encode faithfully. */
  predicate WellFormed(s: JString)
    decreases |s|
  {
    if s == [] then true
    else if |s| >= 2 && IsHighSurrogate(s[0]) && IsLowSurrogate(s[1]) then WellFormed(s[2..])
    else !IsSurrogate(s[0]) && WellFormed(s[1..])
  }

  predicate IsContinuation(b: uint8) { 0x80 <= b < 0xC0 }

  /** One decoding step: the code units decoded and the number of bytes consumed. */
  datatype Decoded = Decoded(units: JString, size: nat)

  /**
   * The first character of a non-empty byte string: a well-formed one- to
   * four-byte sequence (no overlong forms, nothing above U+10FFFF); one
   * U+FFFD for a complete three-byte sequence that encodes a surrogate
   * (ED A0..BF 80..BF); otherwise U+FFFD for the first byte alone.
   */
  function DecodeOne(bs: seq<uint8>): (d: Decoded)
    requires bs != []
    ensures 1 <= d.size <= |bs| && 1 <= |d.units| <= d.size
  {
    var b0: int := bs[0];
    if b0 < 0x80 then Decoded([b0], 1)
    else if 0xC2 <= b0 <= 0xDF && |bs| >= 2 && IsContinuation(bs[1]) then
      Decoded([(b0 - 0xC0) * 64 + (bs[1] as int - 0x80)], 2)
    else if 0xE0 <= b0 <= 0xEF && |bs| >= 3 && IsContinuation(bs[1]) && IsContinuation(bs[2])
         && (b0 != 0xE0 || bs[1] >= 0xA0) then
      if b0 == 0xED && bs[1] >= 0xA0 then Decoded([REPLACEMENT_CHAR], 3)
      else Decoded([(b0 - 0xE0) * 4096 + (bs[1] as int - 0x80) * 64 + (bs[2] as int - 0x80)], 3)
    else if 0xF0 <= b0 <= 0xF4 && |bs| >= 4 && IsContinuation(bs[1]) && IsContinuation(bs[2])
         && IsContinuation(bs[3]) && (b0 != 0xF0 || bs[1] >= 0x90) && (b0 != 0xF4 || bs[1] < 0x90) then
      var cp := (b0 - 0xF0) * 0x4_0000 + (bs[1] as int - 0x80) * 0x1000
                + (bs[2] as int - 0x80) * 64 + (bs[3] as int - 0x80);
      Decoded([0xD800 + (cp - 0x1_0000) / 0x400, 0xDC00 + (cp - 0x1_0000) % 0x400], 4)
    else Decoded([REPLACEMENT_CHAR], 1)
  }

  /** `new String(bs, UTF_8)`. */
  function Decode(bs: seq<uint8>): (r: JString)
    ensures |r| <= |bs| && (bs != [] ==> r != [])
    decreases |bs|
  {
    if bs == [] then []
    else
      var d := DecodeOne(bs);
      d.units + Decode(bs[d.size..])
  }

  /**
   * The three-byte form of a surrogate, which `getBytes` never writes but
   * another sender can, decodes to a single U+FFFD, and a following byte
   * string is decoded on its own.
   */
  lemma EncodedSurrogateReplaced(b1: uint8, b2: uint8, rest: seq<uint8>)
    requires 0xA0 <= b1 < 0xC0 && IsContinuation(b2)
    ensures Decode([0xED, b1, b2] + rest) == [REPLACEMENT_CHAR] + Decode(rest)
  {
    var bs := [0xED, b1, b2] + rest;
    assert DecodeOne(bs) == Decoded([REPLACEMENT_CHAR], 3);
    assert bs[3..] == rest;
  }

  /** The bytes of a unit decode, as one step, to that unit. */
  lemma DecodeOneUnit(c: JChar, rest: seq<uint8>)
    requires !IsSurrogate(c)
    ensures DecodeOne(UnitBytes(c) + rest) == Decoded([c], |UnitBytes(c)|)
  {
    if c >= 0x800 {
      assert c == (c / 4096) * 4096 + ((c / 64) % 64) * 64 + c % 64;
    } else if c >= 0x80 {
      assert c == (c / 64) * 64 + c % 64;
    }
  }

  lemma DecodeUnit(c: JChar, rest: seq<uint8>)
    requires !IsSurrogate(c)
    ensures Decode(UnitBytes(c) + rest) == [c] + Decode(rest)
  {
    var bs := UnitBytes(c) + rest;
    DecodeOneUnit(c, rest);
    assert bs[|UnitBytes(c)|..] == rest;
  }

  /** The base-64 digits of a supplementary code point, as the four-byte form carries them. */
  lemma SupplementaryDigits(cp: int)
    requires 0x1_0000 <= cp <= 0x10_FFFF
    ensures 0 <= cp / 0x4_0000 <= 4
    ensures cp == (cp / 0x4_0000) * 0x4_0000 + ((cp / 0x1000) % 64) * 0x1000 + ((cp / 64) % 64) * 64 + cp % 64
    ensures cp / 0x4_0000 == 0 ==> (cp / 0x1000) % 64 >= 0x10
    ensures cp / 0x4_0000 == 4 ==> (cp / 0x1000) % 64 < 0x10
  {
    var q := cp / 64;
    assert cp == q * 64 + cp % 64;
    var r := q / 64;
    assert q == r * 64 + q % 64;
    assert r == cp / 0x1000;
    assert r == (r / 64) * 64 + r % 64;
    assert r / 64 == cp / 0x4_0000;
  }

  /** Splitting the offset of a code point back into the two surrogate halves. */
  lemma SurrogateHalves(a: int, b: int)
    requires 0 <= a < 0x400 && 0 <= b < 0x400
    ensures (a * 0x400 + b) / 0x400 == a && (a * 0x400 + b) % 0x400 == b
  {
  }

  lemma DecodePair(high: JChar, low: JChar, rest: seq<uint8>)
    requires IsHighSurrogate(high) && IsLowSurrogate(low)
    ensures Decode(PairBytes(high, low) + rest) == [high, low] + Decode(rest)
  {
    var bs := PairBytes(high, low) + rest;
    assert bs[4..] == rest;
    var cp := Supplementary(high, low);
    SupplementaryDigits(cp);
    SurrogateHalves(high - 0xD800, low - 0xDC00);
    assert DecodeOne(bs) == Decoded([high, low], 4);
  }

  /** `new String(s.getBytes(UTF_8), UTF_8)` gives back every well-formed string. */
  lemma {:induction false} DecodeEncode(s: JString)
    requires WellFormed(s)
    ensures Decode(Encode(s)) == s
    decreases |s|
  {
    if s == [] {
    } else if |s| >= 2 && IsHighSurrogate(s[0]) && IsLowSurrogate(s[1]) {
      hide Decode, DecodeOne;
      DecodePair(s[0], s[1], Encode(s[2..]));
      DecodeEncode(s[2..]);
      assert [s[0], s[1]] + s[2..] == s;
    } else {
      hide Decode, DecodeOne;
      DecodeUnit(s[0], Encode(s[1..]));
      DecodeEncode(s[1..]);
      assert [s[0]] + s[1..] == s;
    }
  }

  /** Every unit in one byte: ASCII kept, anything else turned into '?'. */
  function Substituted(s: JString): (r: seq<uint8>)
    ensures |r| == |s|
  {
    seq(|s|, i requires 0 <= i < |s| => if s[i] < 0x80 then s[i] else REPLACEMENT_BYTE)
  }

  /**
   * The encoding is never shorter than the string, and is exactly as long
   * only when every unit is ASCII or a lone surrogate, each then taking one
   * byte of its own.
   */
  lemma {:induction false} EncodeLength(s: JString)
    ensures |Encode(s)| >= |s|
    ensures |Encode(s)| == |s| ==>
      (forall i | 0 <= i < |s| :: s[i] < 0x80 || IsSurrogate(s[i])) && Encode(s) == Substituted(s)
    decreases |s|
  {
    if s == [] {
    } else if |s| >= 2 && IsHighSurrogate(s[0]) && IsLowSurrogate(s[1]) {
      EncodeLength(s[2..]);
    } else {
      EncodeLength(s[1..]);
      if |Encode(s)| == |s| {
        if !IsSurrogate(s[0]) {
          assert |UnitBytes(s[0])| == 1;
        }
        assert forall i | 1 <= i < |s| :: s[i] == s[1..][i - 1];
        assert Encode(s) == Substituted(s);
      }
    }
  }

  /** Bytes below 0x80 decode one to one. */
  lemma {:induction false} DecodeAscii(bs: seq<uint8>)
    requires forall i | 0 <= i < |bs| :: bs[i] < 0x80
    ensures Decode(bs) == seq(|bs|, i requires 0 <= i < |bs| => bs[i] as JChar)
    decreases |bs|
  {
    if bs != [] {
      DecodeAscii(bs[1..]);
    }
  }

  /** An ASCII string is its own encoding, byte for unit. */
  lemma {:induction false} AsciiEncoding(s: JString)
    requires forall i | 0 <= i < |s| :: s[i] < 0x80
    ensures Encode(s) == s
    ensures Decode(Encode(s)) == s
    decreases |s|
  {
    if s != [] {
      AsciiEncoding(s[1..]);
      assert [s[0]] + s[1..] == s;
    }
  }
}
