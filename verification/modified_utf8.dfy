/**
 * Java's "modified UTF-8", the body format of `DataOutput.writeUTF` and
 * `DataInput.readUTF`: each UTF-16 code unit on its own, U+0001..U+007F in
 * one byte, U+0000 and U+0080..U+07FF in two, everything else (surrogates
 * included) in three.
 */
module ModifiedUtf8 {
  import opened JavaLang

  /** The bytes `writeUTF` emits for one code unit. */
  function EncodeChar(c: JChar): (r: seq<uint8>)
    ensures 1 <= |r| <= 3
    ensures |r| == 1 <==> 0x01 <= c <= 0x7F
  {
    if 0x01 <= c <= 0x7F then [c]
    else if c > 0x7FF then [0xE0 + c / 4096, 0x80 + (c / 64) % 64, 0x80 + c % 64]
    else [0xC0 + c / 64, 0x80 + c % 64]
  }

  function Encode(s: JString): (r: seq<uint8>)
    ensures |s| <= |r| <= 3 * |s|
  {
    if s == [] then [] else EncodeChar(s[0]) + Encode(s[1..])
  }

  predicate IsContinuation(b: uint8) {
    0x80 <= b < 0xC0
  }

  function Prepend(c: JChar, r: Result<JString>): Result<JString> {
    if r.Ok? then Ok([c] + r.value) else r
  }

  /**
   * The characters `readUTF` decodes from a body, or `UTFDataFormatException`
   * for a malformed byte or a partial character at the end.
   */
  function Decode(bs: seq<uint8>): (r: Result<JString>)
    ensures r.Thrown? ==> r.exception == UTFDataFormatException
    ensures r.Ok? ==> |r.value| <= |bs|
  {
    if bs == [] then Ok([])
    else
      var c: int := bs[0];
      if c < 0x80 then Prepend(c, Decode(bs[1..]))
      else if 0xC0 <= c < 0xE0 then
        if |bs| < 2 || !IsContinuation(bs[1]) then Thrown(UTFDataFormatException)
        else Prepend((c - 0xC0) * 64 + (bs[1] as int - 0x80), Decode(bs[2..]))
      else if 0xE0 <= c < 0xF0 then
        if |bs| < 3 || !IsContinuation(bs[1]) || !IsContinuation(bs[2]) then Thrown(UTFDataFormatException)
        else Prepend((c - 0xE0) * 4096 + (bs[1] as int - 0x80) * 64 + (bs[2] as int - 0x80), Decode(bs[3..]))
      else Thrown(UTFDataFormatException)
  }

  /** Decoding one encoded character followed by anything decodes that character first. */
  lemma DecodeEncodeChar(c: JChar, rest: seq<uint8>)
    ensures Decode(EncodeChar(c) + rest) == Prepend(c, Decode(rest))
  {
    var bs := EncodeChar(c) + rest;
    if 0x01 <= c <= 0x7F {
      assert bs[1..] == rest;
    } else if c > 0x7FF {
      assert bs[3..] == rest;
      assert c == (c / 4096) * 4096 + ((c / 64) % 64) * 64 + c % 64;
    } else {
      assert bs[2..] == rest;
      assert c == (c / 64) * 64 + c % 64;
    }
  }

  /** `readUTF` gives back exactly the characters `writeUTF` encoded. */
  lemma {:induction false} DecodeEncode(s: JString)
    ensures Decode(Encode(s)) == Ok(s)
  {
    if s != [] {
      DecodeEncodeChar(s[0], Encode(s[1..]));
      DecodeEncode(s[1..]);
      assert [s[0]] + s[1..] == s;
    }
  }

  /** Encoding distributes over concatenation. */
  lemma {:induction false} EncodeAppend(s: JString, t: JString)
    ensures Encode(s + t) == Encode(s) + Encode(t)
  {
    if s != [] {
      assert (s + t)[0] == s[0] && (s + t)[1..] == s[1..] + t;
      EncodeAppend(s[1..], t);
      calc {
        Encode(s + t);
        EncodeChar(s[0]) + Encode(s[1..] + t);
        EncodeChar(s[0]) + (Encode(s[1..]) + Encode(t));
      }
    } else {
      assert s + t == t;
    }
  }

  /** Characters U+0001..U+007F are written as themselves, one byte each. */
  lemma {:induction false} EncodeAscii(s: JString)
    requires forall i | 0 <= i < |s| :: 0x01 <= s[i] <= 0x7F
    ensures Encode(s) == s
  {
    if s != [] {
      EncodeAscii(s[1..]);
    }
  }
}
