/**
 * The primitive codec every `PluginMessage` inherits: `writeX`/`readX`
 * helpers over a `DataOutputStream`/`DataInputStream`. The reads never let
 * an end of stream escape; each answers a default instead (-1, `false` or
 * `null`).
 */
module Codec {
  import opened JavaLang
  import opened BigEndian
  import opened DataStreams
  import Utf8

  /** A read that cannot throw: the value and where the stream stands afterwards. */
  datatype Read<+T> = Read(value: T, next: nat)

  /** `java.util.UUID`, as its two halves. */
  datatype UUID = UUID(mostSignificantBits: int64, leastSignificantBits: int64)

  /** The largest `String.length()` (and array length) Java allows. */
  const MAX_JAVA_LENGTH: nat := 0x7FFF_FFFF

  // ---------------------------------------------------------------- readers

  function IntAt(data: seq<uint8>, pos: nat): (r: Read<int32>)
    requires pos <= |data|
    ensures pos <= r.next <= |data|
  {
    var s := ReadIntAt(data, pos);
    Read(if s.result.Ok? then s.result.value else -1, s.next)
  }

  function BooleanAt(data: seq<uint8>, pos: nat): (r: Read<bool>)
    requires pos <= |data|
    ensures pos <= r.next <= |data|
  {
    var s := ReadBooleanAt(data, pos);
    Read(if s.result.Ok? then s.result.value else false, s.next)
  }

  function ByteAt(data: seq<uint8>, pos: nat): (r: Read<int8>)
    requires pos <= |data|
    ensures pos <= r.next <= |data|
  {
    var s := ReadByteAt(data, pos);
    Read(if s.result.Ok? then s.result.value else -1, s.next)
  }

  function ShortAt(data: seq<uint8>, pos: nat): (r: Read<int16>)
    requires pos <= |data|
    ensures pos <= r.next <= |data|
  {
    var s := ReadShortAt(data, pos);
    Read(if s.result.Ok? then s.result.value else -1, s.next)
  }

  function LongAt(data: seq<uint8>, pos: nat): (r: Read<int64>)
    requires pos <= |data|
    ensures pos <= r.next <= |data|
  {
    var s := ReadLongAt(data, pos);
    Read(if s.result.Ok? then s.result.value else -1, s.next)
  }

  /**
   * `readUUID`: `null` for the marker -1 or a stream that ends before both
   * halves are there; a UUID whose most significant half is -1 therefore
   * never survives the trip.
   */
  function UUIDAt(data: seq<uint8>, pos: nat): (r: Read<Option<UUID>>)
    requires pos <= |data|
    ensures pos <= r.next <= |data|
    ensures r.value.Some? ==> r.value.value.mostSignificantBits != -1 && r.next == pos + 16
  {
    var most := ReadLongAt(data, pos);
    if most.result.Thrown? || most.result.value == -1 then Read(None, most.next)
    else
      var least := ReadLongAt(data, most.next);
      if least.result.Thrown? then Read(None, least.next)
      else Read(Some(UUID(most.result.value, least.result.value)), least.next)
  }

  /**
   * `readString` as written: an `int` length prefix (end of stream: `null`),
   * an array of that many bytes (a negative length throws
   * `NegativeArraySizeException`), one `read` into it (the end of the stream
   * throws `IOException`, a short read leaves zero bytes at the end), and
   * the UTF-8 decoding of the whole array.
   */
  function StringAt(data: seq<uint8>, pos: nat): (s: Step<Option<JString>>)
    requires pos <= |data|
    ensures pos <= s.next <= |data|
    ensures s.result.Thrown? ==> s.result.exception in {NegativeArraySizeException, IOException}
  {
    var length := ReadIntAt(data, pos);
    if length.result.Thrown? then Step(Ok(None), length.next)
    else if length.result.value < 0 then Step(Thrown(NegativeArraySizeException), length.next)
    else
      var chunk := ReadIntoAt(data, length.next, length.result.value);
      if chunk.count == -1 then Step(Thrown(IOException), chunk.next)
      else Step(Ok(Some(Utf8.Decode(chunk.buffer))), chunk.next)
  }

  // ---------------------------------------------------------------- writers

  /** `writeUUID`: -1 alone for `null`, otherwise both halves. */
  function UUIDBytes(u: Option<UUID>): (r: seq<uint8>)
    ensures |r| == if u.Some? then 16 else 8
  {
    match u
    case None => LongBytes(-1)
    case Some(id) => LongBytes(id.mostSignificantBits) + LongBytes(id.leastSignificantBits)
  }

  /**
   * `writeString` as written: the number of UTF-16 units, then the UTF-8
   * bytes; `null` throws `NullPointerException` before anything is written.
   */
  function StringBytes(s: Option<JString>): (r: Result<seq<uint8>>)
    requires s.Some? ==> |s.value| <= MAX_JAVA_LENGTH
    ensures r.Ok? <==> s.Some?
    ensures r.Thrown? ==> r.exception == NullPointerException
    ensures r.Ok? ==> |r.value| >= 4 + |s.value| && IntOf(r.value[..4]) == |s.value|
  {
    match s
    case None => Thrown(NullPointerException)
    case Some(str) =>
      var bytes := IntBytes(|str|) + Utf8.Encode(str);
      Utf8.EncodeLength(str);
      IntRoundTrip(|str|);
      assert bytes[..4] == IntBytes(|str|);
      Ok(bytes)
  }

  method WriteInt(output: DataOutputStream, value: int32)
    modifies output
    ensures output.written == old(output.written) + IntBytes(value)
  {
    output.WriteInt(value);
  }

  method WriteBoolean(output: DataOutputStream, value: bool)
    modifies output
    ensures output.written == old(output.written) + BooleanBytes(value)
  {
    output.WriteBoolean(value);
  }

  method WriteByte(output: DataOutputStream, value: int8)
    modifies output
    ensures output.written == old(output.written) + ByteBytes(value)
  {
    output.WriteByte(value);
  }

  method WriteLong(output: DataOutputStream, value: int64)
    modifies output
    ensures output.written == old(output.written) + LongBytes(value)
  {
    output.WriteLong(value);
  }

  method WriteShort(output: DataOutputStream, value: int16)
    modifies output
    ensures output.written == old(output.written) + ShortBytes(value)
  {
    output.WriteShort(value);
  }

  method WriteUUID(output: DataOutputStream, value: Option<UUID>)
    modifies output
    ensures output.written == old(output.written) + UUIDBytes(value)
  {
    if value.None? {
      output.WriteLong(-1);
    } else {
      output.WriteLong(value.value.mostSignificantBits);
      output.WriteLong(value.value.leastSignificantBits);
    }
  }

  method WriteString(output: DataOutputStream, value: Option<JString>) returns (thrown: Option<Exception>)
    requires value.Some? ==> |value.value| <= MAX_JAVA_LENGTH
    modifies output
    ensures StringBytes(value).Ok? ==> thrown.None? && output.written == old(output.written) + StringBytes(value).value
    ensures StringBytes(value).Thrown? ==> thrown == Some(StringBytes(value).exception) && output.written == old(output.written)
  {
    if value.None? {
      thrown := Some(NullPointerException);
    } else {
      output.WriteInt(|value.value|);
      output.Write(Utf8.Encode(value.value));
      thrown := None;
    }
  }

  method ReadInt(input: DataInputStream) returns (value: int32)
    requires input.Valid()
    modifies input
    ensures input.Valid() && Read(value, input.pos) == IntAt(input.data, old(input.pos))
  {
    var r := input.ReadInt();
    value := if r.Ok? then r.value else -1;
  }

  method ReadBoolean(input: DataInputStream) returns (value: bool)
    requires input.Valid()
    modifies input
    ensures input.Valid() && Read(value, input.pos) == BooleanAt(input.data, old(input.pos))
  {
    var r := input.ReadBoolean();
    value := if r.Ok? then r.value else false;
  }

  method ReadByte(input: DataInputStream) returns (value: int8)
    requires input.Valid()
    modifies input
    ensures input.Valid() && Read(value, input.pos) == ByteAt(input.data, old(input.pos))
  {
    var r := input.ReadByte();
    value := if r.Ok? then r.value else -1;
  }

  method ReadLong(input: DataInputStream) returns (value: int64)
    requires input.Valid()
    modifies input
    ensures input.Valid() && Read(value, input.pos) == LongAt(input.data, old(input.pos))
  {
    var r := input.ReadLong();
    value := if r.Ok? then r.value else -1;
  }

  method ReadShort(input: DataInputStream) returns (value: int16)
    requires input.Valid()
    modifies input
    ensures input.Valid() && Read(value, input.pos) == ShortAt(input.data, old(input.pos))
  {
    var r := input.ReadShort();
    value := if r.Ok? then r.value else -1;
  }

  method ReadUUID(input: DataInputStream) returns (value: Option<UUID>)
    requires input.Valid()
    modifies input
    ensures input.Valid() && Read(value, input.pos) == UUIDAt(input.data, old(input.pos))
  {
    var most := input.ReadLong();
    if most.Thrown? || most.value == -1 {
      value := None;
    } else {
      var least := input.ReadLong();
      value := if least.Thrown? then None else Some(UUID(most.value, least.value));
    }
  }

  method ReadString(input: DataInputStream) returns (r: Result<Option<JString>>)
    requires input.Valid()
    modifies input
    ensures input.Valid() && Step(r, input.pos) == StringAt(input.data, old(input.pos))
  {
    var length := input.ReadInt();
    if length.Thrown? {
      r := Ok(None);
    } else if length.value < 0 {
      r := Thrown(NegativeArraySizeException);
    } else {
      var count, payload := input.Read(length.value);
      r := if count == -1 then Thrown(IOException) else Ok(Some(Utf8.Decode(payload)));
    }
  }

  // ---------------------------------------------------------------- properties

  /** Every fixed-width value comes back as written, and the stream stands right after it. */
  lemma PrimitiveRoundTrips(pre: seq<uint8>, rest: seq<uint8>, i: int32, b: bool, y: int8, h: int16, l: int64)
    ensures IntAt(pre + IntBytes(i) + rest, |pre|) == Read(i, |pre| + 4)
    ensures BooleanAt(pre + BooleanBytes(b) + rest, |pre|) == Read(b, |pre| + 1)
    ensures ByteAt(pre + ByteBytes(y) + rest, |pre|) == Read(y, |pre| + 1)
    ensures ShortAt(pre + ShortBytes(h) + rest, |pre|) == Read(h, |pre| + 2)
    ensures LongAt(pre + LongBytes(l) + rest, |pre|) == Read(l, |pre| + 8)
  {
    IntWritten(pre, i, rest);
    BooleanWritten(pre, b, rest);
    ByteWritten(pre, y, rest);
    ShortWritten(pre, h, rest);
    LongWritten(pre, l, rest);
  }

  /**
   * Too few bytes left: every read answers its default and consumes what was
   * left; a string or UUID reads as `null`.
   */
  lemma ReadsPastEnd(data: seq<uint8>, pos: nat)
    requires pos <= |data| && |data| - pos < 4
    ensures IntAt(data, pos) == Read(-1, |data|)
    ensures StringAt(data, pos) == Step(Ok(None), |data|)
    ensures |data| - pos < 2 ==> ShortAt(data, pos) == Read(-1, |data|)
    ensures pos == |data| ==> BooleanAt(data, pos) == Read(false, pos) && ByteAt(data, pos) == Read(-1, pos)
    ensures LongAt(data, pos) == Read(-1, |data|)
    ensures UUIDAt(data, pos) == Read(None, |data|)
  {
  }

  /**
   * A UUID comes back exactly when its most significant half is not -1; one
   * that is reads as `null` after only eight bytes, and so does `null`.
   */
  lemma UUIDRoundTrip(pre: seq<uint8>, u: Option<UUID>, rest: seq<uint8>)
    ensures u.Some? && u.value.mostSignificantBits != -1 ==>
      UUIDAt(pre + UUIDBytes(u) + rest, |pre|) == Read(u, |pre| + 16)
    ensures u.None? || u.value.mostSignificantBits == -1 ==>
      UUIDAt(pre + UUIDBytes(u) + rest, |pre|) == Read(None, |pre| + 8)
  {
    match u
    case None =>
      LongWritten(pre, -1, rest);
    case Some(id) =>
      var least := LongBytes(id.leastSignificantBits);
      assert pre + UUIDBytes(u) + rest == pre + LongBytes(id.mostSignificantBits) + (least + rest);
      LongWritten(pre, id.mostSignificantBits, least + rest);
      assert pre + UUIDBytes(u) + rest == (pre + LongBytes(id.mostSignificantBits)) + least + rest;
      LongWritten(pre + LongBytes(id.mostSignificantBits), id.leastSignificantBits, rest);
  }

  /** A UUID whose second half is cut off reads as `null` and consumes the rest. */
  lemma UUIDCutShort(pre: seq<uint8>, id: UUID, k: nat)
    requires id.mostSignificantBits != -1 && 8 <= k < 16
    ensures UUIDAt(pre + UUIDBytes(Some(id))[..k], |pre|) == Read(None, |pre| + k)
  {
    var data := pre + UUIDBytes(Some(id))[..k];
    assert data == pre + LongBytes(id.mostSignificantBits) + data[|pre| + 8..];
    LongWritten(pre, id.mostSignificantBits, data[|pre| + 8..]);
  }

  // ---------------------------------------------------------------- strings

  /** An ASCII string, the only kind `writeString`/`readString` carry intact. */
  predicate IsAscii(s: JString) {
    forall i | 0 <= i < |s| :: s[i] < 0x80
  }

  /** Where the length prefix has been read, `readString` is one `read` of the rest. */
  lemma StringAtPrefixed(pre: seq<uint8>, n: int32, tail: seq<uint8>)
    requires n >= 0
    ensures var c := ReadIntoAt(tail, 0, n);
      StringAt(pre + IntBytes(n) + tail, |pre|)
        == if c.count == -1 then Step(Thrown(IOException), |pre| + 4)
           else Step(Ok(Some(Utf8.Decode(c.buffer))), |pre| + 4 + c.next)
  {
    IntWritten(pre, n, tail);
    assert pre + IntBytes(n) + tail == (pre + IntBytes(n)) + tail;
    ReadIntoShift(pre + IntBytes(n), tail, n);
  }

  /** An ASCII body read back whole, unless it is empty and nothing follows. */
  lemma AsciiBodyRead(s: JString, rest: seq<uint8>)
    requires IsAscii(s)
    ensures var c := ReadIntoAt(Utf8.Encode(s) + rest, 0, |s|);
      if s == [] && rest == [] then c.count == -1
      else c.count != -1 && c.next == |s| && Utf8.Decode(c.buffer) == s
  {
    Utf8.AsciiEncoding(s);
    var tail := Utf8.Encode(s) + rest;
    assert tail[..|s|] == Utf8.Encode(s);
    assert tail[..|s|] + Zeros(0) == Utf8.Encode(s);
  }

  /** A body that is not all ASCII is never read back whole as the same string. */
  lemma OtherBodyRead(s: JString, rest: seq<uint8>)
    requires !IsAscii(s)
    ensures var c := ReadIntoAt(Utf8.Encode(s) + rest, 0, |s|);
      c.count == -1 || c.next != |Utf8.Encode(s)| || Utf8.Decode(c.buffer) != s
  {
    var body := Utf8.Encode(s);
    var tail := body + rest;
    var c := ReadIntoAt(tail, 0, |s|);
    Utf8.EncodeLength(s);
    if c.count != -1 && c.next == |body| {
      assert |body| == |s|;
      assert c.buffer == tail[..|s|] + Zeros(0);
      assert tail[..|s|] == body;
      var i :| 0 <= i < |s| && s[i] >= 0x80;
      assert body[i] == Utf8.REPLACEMENT_BYTE;
      Utf8.DecodeAscii(body);
      assert c.buffer == body;
      assert Utf8.Decode(body)[i] == Utf8.REPLACEMENT_BYTE;
    }
  }

  /**
   * The string written by `writeString` comes back, with the stream right
   * after it, exactly when every unit is ASCII and the string is not an
   * empty one at the very end of the stream. The prefix counts UTF-16 units
   * but the body is UTF-8: anything else either leaves bytes behind or
   * decodes a lone surrogate's '?', and an empty body at the end makes
   * `read` report the end of the stream.
   */
  lemma {:induction false} StringRoundTrip(pre: seq<uint8>, s: JString, rest: seq<uint8>)
    requires |s| <= MAX_JAVA_LENGTH
    ensures StringBytes(Some(s)).Ok?
    ensures StringAt(pre + StringBytes(Some(s)).value + rest, |pre|)
              == Step(Ok(Some(s)), |pre| + |StringBytes(Some(s)).value|)
        <==> IsAscii(s) && (s != [] || rest != [])
  {
    var body := Utf8.Encode(s);
    var written := StringBytes(Some(s)).value;
    assert written == IntBytes(|s|) + body;
    assert pre + written + rest == pre + IntBytes(|s|) + (body + rest);
    StringAtPrefixed(pre, |s|, body + rest);
    var c := ReadIntoAt(body + rest, 0, |s|);
    if IsAscii(s) {
      Utf8.AsciiEncoding(s);
      AsciiBodyRead(s, rest);
    } else {
      OtherBodyRead(s, rest);
    }
  }

  /** "é" (U+00E9) is announced as one unit but takes two bytes: it reads back as U+FFFD with 0xA9 left behind. */
  lemma NonAsciiStringMisread()
    ensures StringBytes(Some([0xE9])) == Ok([0, 0, 0, 1, 0xC3, 0xA9])
    ensures StringAt([0, 0, 0, 1, 0xC3, 0xA9], 0) == Step(Ok(Some([Utf8.REPLACEMENT_CHAR])), 5)
  {
    var e: JString := [0xE9];
    var written: seq<uint8> := [0, 0, 0, 1, 0xC3, 0xA9];
    assert IntBytes(1) == [0, 0, 0, 1];
    assert Utf8.Encode(e) == [0xC3, 0xA9];
    assert StringBytes(Some(e)) == Ok(IntBytes(1) + Utf8.Encode(e));
    assert written == [] + IntBytes(1) + [0xC3, 0xA9];
    StringAtPrefixed([], 1, [0xC3, 0xA9]);
    var c := ReadIntoAt([0xC3, 0xA9], 0, 1);
    assert c.buffer == [0xC3];
    assert Utf8.Decode([0xC3]) == [Utf8.REPLACEMENT_CHAR];
  }

  /** The empty string as the last field: `read` of an empty array at the end reports -1, so `readString` throws. */
  lemma EmptyStringAtEnd()
    ensures StringBytes(Some([])) == Ok([0, 0, 0, 0])
    ensures StringAt([0, 0, 0, 0], 0) == Step(Thrown(IOException), 4)
  {
    var empty: JString := [];
    var written: seq<uint8> := [0, 0, 0, 0];
    assert IntBytes(0) == [0, 0, 0, 0];
    assert StringBytes(Some(empty)) == Ok(IntBytes(0) + Utf8.Encode(empty));
    assert written == [] + IntBytes(0) + [];
    StringAtPrefixed([], 0, []);
  }

  /** `writeString` as evidently intended: the prefix counts the UTF-8 bytes that follow it. */
  function CorrectedStringBytes(s: Option<JString>): Result<seq<uint8>>
    requires s.Some? ==> |Utf8.Encode(s.value)| <= MAX_JAVA_LENGTH
  {
    match s
    case None => Thrown(NullPointerException)
    case Some(str) => Ok(IntBytes(|Utf8.Encode(str)|) + Utf8.Encode(str))
  }

  /**
   * `readString` as evidently intended: `readFully` of the announced length,
   * so an empty body needs no byte and a body cut short is an end of stream
   * (`null`, like a missing prefix).
   */
  function CorrectedStringAt(data: seq<uint8>, pos: nat): (s: Step<Option<JString>>)
    requires pos <= |data|
    ensures pos <= s.next <= |data|
    ensures s.result.Thrown? ==> s.result.exception == NegativeArraySizeException
  {
    var length := ReadIntAt(data, pos);
    if length.result.Thrown? then Step(Ok(None), length.next)
    else if length.result.value < 0 then Step(Thrown(NegativeArraySizeException), length.next)
    else
      var body := TakeAt(data, length.next, length.result.value);
      if body.result.Thrown? then Step(Ok(None), body.next)
      else Step(Ok(Some(Utf8.Decode(body.result.value))), body.next)
  }

  /** Every well-formed string, empty or not, at the end of the stream or not, comes back. */
  lemma CorrectedStringRoundTrip(pre: seq<uint8>, s: JString, rest: seq<uint8>)
    requires Utf8.WellFormed(s) && |Utf8.Encode(s)| <= MAX_JAVA_LENGTH
    ensures CorrectedStringBytes(Some(s)).Ok?
    ensures CorrectedStringAt(pre + CorrectedStringBytes(Some(s)).value + rest, |pre|)
         == Step(Ok(Some(s)), |pre| + |CorrectedStringBytes(Some(s)).value|)
  {
    hide ReadIntAt, TakeAt, Utf8.Decode;
    var body := Utf8.Encode(s);
    var head := IntBytes(|body|);
    var data := pre + CorrectedStringBytes(Some(s)).value + rest;
    assert data == pre + head + (body + rest);
    assert ReadIntAt(data, |pre|) == Step(Ok(|body|), |pre| + 4) by {
      IntWritten(pre, |body|, body + rest);
    }
    assert TakeAt(data, |pre| + 4, |body|) == Step(Ok(body), |pre| + 4 + |body|) by {
      assert data == (pre + head) + body + rest;
      TakeWritten(pre + head, body, rest);
    }
    Utf8.DecodeEncode(s);
  }

  method CorrectedWriteString(output: DataOutputStream, value: Option<JString>) returns (thrown: Option<Exception>)
    requires value.Some? ==> |Utf8.Encode(value.value)| <= MAX_JAVA_LENGTH
    modifies output
    ensures CorrectedStringBytes(value).Ok? ==>
      thrown.None? && output.written == old(output.written) + CorrectedStringBytes(value).value
    ensures CorrectedStringBytes(value).Thrown? ==>
      thrown == Some(CorrectedStringBytes(value).exception) && output.written == old(output.written)
  {
    if value.None? {
      thrown := Some(NullPointerException);
    } else {
      var payload := Utf8.Encode(value.value);
      output.WriteInt(|payload|);
      output.Write(payload);
      thrown := None;
    }
  }

  method CorrectedReadString(input: DataInputStream) returns (r: Result<Option<JString>>)
    requires input.Valid()
    modifies input
    ensures input.Valid() && Step(r, input.pos) == CorrectedStringAt(input.data, old(input.pos))
  {
    var length := input.ReadInt();
    if length.Thrown? {
      r := Ok(None);
    } else if length.value < 0 {
      r := Thrown(NegativeArraySizeException);
    } else {
      var payload := input.ReadFully(length.value);
      r := if payload.Thrown? then Ok(None) else Ok(Some(Utf8.Decode(payload.value)));
    }
  }
}
