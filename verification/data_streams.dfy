/**
 * `java.io.DataOutputStream` over a `ByteArrayOutputStream` and
 * `java.io.DataInputStream` over a `ByteArrayInputStream`, the only streams
 * the core ever builds, reduced to the calls it makes.
 */
module DataStreams {
  import opened JavaLang
  import opened BigEndian
  import ModifiedUtf8

  /** `writeUTF` refuses bodies longer than this: the length travels in two bytes. */
  const MAX_UTF_LENGTH: nat := 65535

  /** What `writeUTF(s)` appends, or what it throws before writing anything. */
  function UTFBytes(s: Option<JString>): (r: Result<seq<uint8>>)
    ensures r.Ok? <==> s.Some? && Writable(s.value)
    ensures r.Thrown? ==> r.exception == if s.None? then NullPointerException else UTFDataFormatException
    ensures r.Ok? ==> 2 <= |r.value| <= 2 + MAX_UTF_LENGTH && FromBytes(r.value[..2]) == |r.value| - 2
  {
    match s
    case None => Thrown(NullPointerException)
    case Some(str) =>
      var body := ModifiedUtf8.Encode(str);
      if |body| > MAX_UTF_LENGTH then Thrown(UTFDataFormatException)
      else
        var bytes := ToBytes(|body|, 2) + body;
        FromToBytes(|body|, 2);
        assert bytes[..2] == ToBytes(|body|, 2);
        Ok(bytes)
  }

  /** A string `writeUTF` accepts. */
  predicate Writable(s: JString) {
    |ModifiedUtf8.Encode(s)| <= MAX_UTF_LENGTH
  }

  /** What a message's `write` leaves in the stream, and the exception that escapes it, if any. */
  datatype Emission = Emission(bytes: seq<uint8>, escaped: Option<Exception>)

  /**
   * Writes run in order inside `try { … } catch (IOException e) { … }`: the
   * first write that throws stops the rest; an `IOException` is swallowed and
   * any other exception escapes. What was written before stays written.
   */
  function TryWrites(writes: seq<Result<seq<uint8>>>): (e: Emission)
    ensures e.escaped.Some? ==> !IsIOException(e.escaped.value)
    ensures e.escaped.Some? ==> Thrown(e.escaped.value) in writes
    ensures (forall i | 0 <= i < |writes| :: writes[i].Ok?) ==> e.escaped.None?
  {
    if writes == [] then Emission([], None)
    else if writes[0].Thrown? then
      Emission([], Escaping(writes[0].exception))
    else
      var rest := TryWrites(writes[1..]);
      assert forall i | 0 <= i < |writes[1..]| :: writes[1..][i] == writes[i + 1];
      Emission(writes[0].value + rest.bytes, rest.escaped)
  }

  /** The exception a failed write leaves escaping a `catch (IOException e)`. */
  function Escaping(e: Exception): (r: Option<Exception>)
    ensures r.None? <==> IsIOException(e)
  {
    if IsIOException(e) then None else Some(e)
  }

  /** A single guarded write. */
  lemma TryOneWrite(w: Result<seq<uint8>>)
    ensures TryWrites([w]) == if w.Ok? then Emission(w.value, None) else Emission([], Escaping(w.exception))
  {
    assert [w][1..] == [];
  }

  /** Two guarded writes: the second runs only when the first succeeded. */
  lemma TryTwoWrites(w: Result<seq<uint8>>, v: Result<seq<uint8>>)
    ensures TryWrites([w, v]) ==
      if w.Thrown? then Emission([], Escaping(w.exception))
      else if v.Thrown? then Emission(w.value, Escaping(v.exception))
      else Emission(w.value + v.value, None)
  {
    assert [w, v][1..] == [v];
    TryOneWrite(v);
  }

  /** A read from a stream: the value or the exception, and where the stream stands afterwards. */
  datatype Step<+T> = Step(result: Result<T>, next: nat)

  /**
   * `readFully` of `n` bytes at `pos`: the bytes, or `EOFException` after
   * whatever was left has been consumed.
   */
  function TakeAt(data: seq<uint8>, pos: nat, n: nat): (s: Step<seq<uint8>>)
    requires pos <= |data|
    ensures pos <= s.next <= |data|
    ensures s.result.Ok? ==> |s.result.value| == n
    ensures s.result.Thrown? ==> s.result.exception == EOFException && s.next == |data|
  {
    if n <= |data| - pos then Step(Ok(data[pos..pos + n]), pos + n)
    else Step(Thrown(EOFException), |data|)
  }

  function ReadByteAt(data: seq<uint8>, pos: nat): (s: Step<int8>)
    requires pos <= |data|
    ensures s.result.Ok? <==> pos + 1 <= |data|
    ensures s.next == if s.result.Ok? then pos + 1 else |data|
    ensures s.result.Thrown? ==> s.result.exception == EOFException
  {
    var t := TakeAt(data, pos, 1);
    Step(if t.result.Ok? then Ok(ByteOf(t.result.value)) else Thrown(t.result.exception), t.next)
  }

  function ReadBooleanAt(data: seq<uint8>, pos: nat): (s: Step<bool>)
    requires pos <= |data|
    ensures s.result.Ok? <==> pos + 1 <= |data|
    ensures s.next == if s.result.Ok? then pos + 1 else |data|
    ensures s.result.Thrown? ==> s.result.exception == EOFException
  {
    var t := TakeAt(data, pos, 1);
    Step(if t.result.Ok? then Ok(BooleanOf(t.result.value)) else Thrown(t.result.exception), t.next)
  }

  function ReadShortAt(data: seq<uint8>, pos: nat): (s: Step<int16>)
    requires pos <= |data|
    ensures s.result.Ok? <==> pos + 2 <= |data|
    ensures s.next == if s.result.Ok? then pos + 2 else |data|
    ensures s.result.Thrown? ==> s.result.exception == EOFException
  {
    var t := TakeAt(data, pos, 2);
    Step(if t.result.Ok? then Ok(ShortOf(t.result.value)) else Thrown(t.result.exception), t.next)
  }

  function ReadIntAt(data: seq<uint8>, pos: nat): (s: Step<int32>)
    requires pos <= |data|
    ensures s.result.Ok? <==> pos + 4 <= |data|
    ensures s.next == if s.result.Ok? then pos + 4 else |data|
    ensures s.result.Thrown? ==> s.result.exception == EOFException
  {
    var t := TakeAt(data, pos, 4);
    Step(if t.result.Ok? then Ok(IntOf(t.result.value)) else Thrown(t.result.exception), t.next)
  }

  function ReadLongAt(data: seq<uint8>, pos: nat): (s: Step<int64>)
    requires pos <= |data|
    ensures s.result.Ok? <==> pos + 8 <= |data|
    ensures s.next == if s.result.Ok? then pos + 8 else |data|
    ensures s.result.Thrown? ==> s.result.exception == EOFException
  {
    var t := TakeAt(data, pos, 8);
    Step(if t.result.Ok? then Ok(LongOf(t.result.value)) else Thrown(t.result.exception), t.next)
  }

  /**
   * `readUTF`: an unsigned two-byte length, that many bytes, then the
   * modified UTF-8 decoding of them.
   */
  function ReadUTFAt(data: seq<uint8>, pos: nat): (s: Step<JString>)
    requires pos <= |data|
    ensures pos <= s.next <= |data|
    ensures s.result.Thrown? ==> IsIOException(s.result.exception)
  {
    var header := TakeAt(data, pos, 2);
    if header.result.Thrown? then Step(Thrown(header.result.exception), header.next)
    else
      var body := TakeAt(data, header.next, FromBytes(header.result.value));
      if body.result.Thrown? then Step(Thrown(body.result.exception), body.next)
      else Step(ModifiedUtf8.Decode(body.result.value), body.next)
  }

  /** The outcome of `read(b)` with `b.length == n`: the count it returns and the buffer afterwards. */
  datatype Chunk = Chunk(count: int, buffer: seq<uint8>, next: nat)

  function Zeros(n: nat): (r: seq<uint8>)
    ensures |r| == n && forall i | 0 <= i < n :: r[i] == 0
  {
    seq(n, _ => 0)
  }

  /**
   * `read(b)` on a byte-array stream: -1 whenever the stream is exhausted
   * (even for an empty buffer); otherwise the available bytes, at most `n`,
   * copied to the front of the zero-filled buffer.
   */
  function ReadIntoAt(data: seq<uint8>, pos: nat, n: nat): (c: Chunk)
    requires pos <= |data|
    ensures |c.buffer| == n && pos <= c.next <= |data|
  {
    if pos == |data| then Chunk(-1, Zeros(n), pos)
    else
      var k := if n <= |data| - pos then n else |data| - pos;
      Chunk(k, data[pos..pos + k] + Zeros(n - k), pos + k)
  }

  /** A `DataOutputStream` writing into a `ByteArrayOutputStream` whose contents are `written`. */
  class DataOutputStream {
    var written: seq<uint8>

    constructor ()
      ensures written == []
    {
      written := [];
    }

    method Write(bs: seq<uint8>)
      modifies this
      ensures written == old(written) + bs
    {
      written := written + bs;
    }

    method WriteByte(v: int8)
      modifies this
      ensures written == old(written) + ByteBytes(v)
    {
      written := written + ByteBytes(v);
    }

    method WriteBoolean(v: bool)
      modifies this
      ensures written == old(written) + BooleanBytes(v)
    {
      written := written + BooleanBytes(v);
    }

    method WriteShort(v: int16)
      modifies this
      ensures written == old(written) + ShortBytes(v)
    {
      written := written + ShortBytes(v);
    }

    method WriteInt(v: int32)
      modifies this
      ensures written == old(written) + IntBytes(v)
    {
      written := written + IntBytes(v);
    }

    method WriteLong(v: int64)
      modifies this
      ensures written == old(written) + LongBytes(v)
    {
      written := written + LongBytes(v);
    }

    /** `writeUTF`: throws (and writes nothing) for `null` or an over-long body. */
    method WriteUTF(s: Option<JString>) returns (thrown: Option<Exception>)
      modifies this
      ensures UTFBytes(s).Ok? ==> thrown.None? && written == old(written) + UTFBytes(s).value
      ensures UTFBytes(s).Thrown? ==> thrown == Some(UTFBytes(s).exception) && written == old(written)
    {
      var r := UTFBytes(s);
      if r.Ok? {
        written := written + r.value;
        thrown := None;
      } else {
        thrown := Some(r.exception);
      }
    }
  }

  /** A `DataInputStream` reading a `ByteArrayInputStream` over `data`, `pos` bytes in. */
  class DataInputStream {
    const data: seq<uint8>
    var pos: nat

    ghost predicate Valid()
      reads this
    {
      pos <= |data|
    }

    constructor (data: seq<uint8>)
      ensures this.data == data && pos == 0 && Valid()
    {
      this.data := data;
      pos := 0;
    }

    method ReadFully(n: nat) returns (r: Result<seq<uint8>>)
      requires Valid()
      modifies this
      ensures Valid() && Step(r, pos) == TakeAt(data, old(pos), n)
    {
      if n <= |data| - pos {
        r := Ok(data[pos..pos + n]);
        pos := pos + n;
      } else {
        r := Thrown(EOFException);
        pos := |data|;
      }
    }

    method ReadByte() returns (r: Result<int8>)
      requires Valid()
      modifies this
      ensures Valid() && Step(r, pos) == ReadByteAt(data, old(pos))
    {
      var bs := ReadFully(1);
      r := if bs.Ok? then Ok(ByteOf(bs.value)) else Thrown(bs.exception);
    }

    method ReadBoolean() returns (r: Result<bool>)
      requires Valid()
      modifies this
      ensures Valid() && Step(r, pos) == ReadBooleanAt(data, old(pos))
    {
      var bs := ReadFully(1);
      r := if bs.Ok? then Ok(BooleanOf(bs.value)) else Thrown(bs.exception);
    }

    method ReadShort() returns (r: Result<int16>)
      requires Valid()
      modifies this
      ensures Valid() && Step(r, pos) == ReadShortAt(data, old(pos))
    {
      var bs := ReadFully(2);
      r := if bs.Ok? then Ok(ShortOf(bs.value)) else Thrown(bs.exception);
    }

    method ReadInt() returns (r: Result<int32>)
      requires Valid()
      modifies this
      ensures Valid() && Step(r, pos) == ReadIntAt(data, old(pos))
    {
      var bs := ReadFully(4);
      r := if bs.Ok? then Ok(IntOf(bs.value)) else Thrown(bs.exception);
    }

    method ReadLong() returns (r: Result<int64>)
      requires Valid()
      modifies this
      ensures Valid() && Step(r, pos) == ReadLongAt(data, old(pos))
    {
      var bs := ReadFully(8);
      r := if bs.Ok? then Ok(LongOf(bs.value)) else Thrown(bs.exception);
    }

    method ReadUTF() returns (r: Result<JString>)
      requires Valid()
      modifies this
      ensures Valid() && Step(r, pos) == ReadUTFAt(data, old(pos))
    {
      var header := ReadFully(2);
      if header.Thrown? {
        r := Thrown(header.exception);
      } else {
        var body := ReadFully(FromBytes(header.value));
        r := if body.Thrown? then Thrown(body.exception) else ModifiedUtf8.Decode(body.value);
      }
    }

    /** `read(b)` for a buffer of length `n`. */
    method Read(n: nat) returns (count: int, buffer: seq<uint8>)
      requires Valid()
      modifies this
      ensures Valid() && Chunk(count, buffer, pos) == ReadIntoAt(data, old(pos), n)
    {
      if pos == |data| {
        count, buffer := -1, Zeros(n);
      } else {
        var k := if n <= |data| - pos then n else |data| - pos;
        count, buffer := k, data[pos..pos + k] + Zeros(n - k);
        pos := pos + k;
      }
    }
  }

  /** `read` does not depend on what came before the current position. */
  lemma ReadIntoShift(pre: seq<uint8>, tail: seq<uint8>, n: nat)
    ensures var c := ReadIntoAt(pre + tail, |pre|, n);
      var d := ReadIntoAt(tail, 0, n);
      c.count == d.count && c.buffer == d.buffer && c.next == |pre| + d.next
  {
    var data := pre + tail;
    if tail != [] {
      var k := if n <= |tail| then n else |tail|;
      assert data[|pre|..|pre| + k] == tail[0..k];
    }
  }

  /** Reading exactly the bytes that were written, wherever they sit in the stream. */
  lemma TakeWritten(pre: seq<uint8>, bs: seq<uint8>, rest: seq<uint8>)
    ensures TakeAt(pre + bs + rest, |pre|, |bs|) == Step(Ok(bs), |pre| + |bs|)
  {
    assert (pre + bs + rest)[|pre|..|pre| + |bs|] == bs;
  }

  lemma ByteWritten(pre: seq<uint8>, v: int8, rest: seq<uint8>)
    ensures ReadByteAt(pre + ByteBytes(v) + rest, |pre|) == Step(Ok(v), |pre| + 1)
  {
    TakeWritten(pre, ByteBytes(v), rest);
    ByteRoundTrip(v);
  }

  lemma BooleanWritten(pre: seq<uint8>, v: bool, rest: seq<uint8>)
    ensures ReadBooleanAt(pre + BooleanBytes(v) + rest, |pre|) == Step(Ok(v), |pre| + 1)
  {
    TakeWritten(pre, BooleanBytes(v), rest);
  }

  lemma ShortWritten(pre: seq<uint8>, v: int16, rest: seq<uint8>)
    ensures ReadShortAt(pre + ShortBytes(v) + rest, |pre|) == Step(Ok(v), |pre| + 2)
  {
    TakeWritten(pre, ShortBytes(v), rest);
    ShortRoundTrip(v);
  }

  lemma IntWritten(pre: seq<uint8>, v: int32, rest: seq<uint8>)
    ensures ReadIntAt(pre + IntBytes(v) + rest, |pre|) == Step(Ok(v), |pre| + 4)
  {
    TakeWritten(pre, IntBytes(v), rest);
    IntRoundTrip(v);
  }

  lemma LongWritten(pre: seq<uint8>, v: int64, rest: seq<uint8>)
    ensures ReadLongAt(pre + LongBytes(v) + rest, |pre|) == Step(Ok(v), |pre| + 8)
  {
    TakeWritten(pre, LongBytes(v), rest);
    LongRoundTrip(v);
  }

  /** `readUTF` gives back what `writeUTF` wrote and stops right after it. */
  lemma UTFWritten(pre: seq<uint8>, s: JString, rest: seq<uint8>)
    requires Writable(s)
    ensures UTFBytes(Some(s)).Ok?
    ensures ReadUTFAt(pre + UTFBytes(Some(s)).value + rest, |pre|)
         == Step(Ok(s), |pre| + |UTFBytes(Some(s)).value|)
  {
    var body := ModifiedUtf8.Encode(s);
    var header := ToBytes(|body|, 2);
    var data := pre + UTFBytes(Some(s)).value + rest;
    assert data == pre + header + (body + rest);
    TakeWritten(pre, header, body + rest);
    FromToBytes(|body|, 2);
    assert data == (pre + header) + body + rest;
    TakeWritten(pre + header, body, rest);
    ModifiedUtf8.DecodeEncode(s);
  }

  /** A `writeUTF` encoding cut short makes `readUTF` hit the end of the stream. */
  lemma UTFCutShort(pre: seq<uint8>, s: JString, k: nat)
    requires Writable(s) && k < |UTFBytes(Some(s)).value|
    ensures UTFBytes(Some(s)).Ok?
    ensures ReadUTFAt(pre + UTFBytes(Some(s)).value[..k], |pre|)
         == Step(Thrown(EOFException), |pre| + k)
  {
    var body := ModifiedUtf8.Encode(s);
    var header := ToBytes(|body|, 2);
    var data := pre + UTFBytes(Some(s)).value[..k];
    if k >= 2 {
      assert data == pre + header + data[|pre| + 2..];
      TakeWritten(pre, header, data[|pre| + 2..]);
      FromToBytes(|body|, 2);
    }
  }
}
