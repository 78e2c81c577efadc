/**
 * Fixed-width, big-endian, two's-complement encodings of Java's primitive
 * types, as `java.io.DataOutput` writes them and `java.io.DataInput` reads
 * them back.
 */
module BigEndian {
  import opened JavaLang

  function Pow256(n: nat): (r: nat)
    ensures r >= 1
  {
    if n == 0 then 1 else 256 * Pow256(n - 1)
  }

  /** The `n` bytes of `x`, most significant first. */
  function ToBytes(x: nat, n: nat): (r: seq<uint8>)
    requires x < Pow256(n)
    ensures |r| == n
  {
    if n == 0 then [] else ToBytes(x / 256, n - 1) + [x % 256]
  }

  /** The unsigned value of a big-endian byte string. */
  function FromBytes(bs: seq<uint8>): (r: nat)
    ensures r < Pow256(|bs|)
  {
    if bs == [] then 0
    else
      var high := FromBytes(bs[..|bs| - 1]);
      assert high <= Pow256(|bs| - 1) - 1;
      256 * high + bs[|bs| - 1]
  }

  /** Decoding the `n` bytes of `x` gives `x` back. */
  lemma {:induction false} FromToBytes(x: nat, n: nat)
    requires x < Pow256(n)
    ensures FromBytes(ToBytes(x, n)) == x
  {
    if n > 0 {
      var bs := ToBytes(x, n);
      assert bs[..n - 1] == ToBytes(x / 256, n - 1);
      FromToBytes(x / 256, n - 1);
    }
  }

  /** Encoding the value of `bs` in `|bs|` bytes gives `bs` back. */
  lemma {:induction false} ToFromBytes(bs: seq<uint8>)
    ensures ToBytes(FromBytes(bs), |bs|) == bs
  {
    if bs != [] {
      var init := bs[..|bs| - 1];
      var x := FromBytes(bs);
      assert x / 256 == FromBytes(init) && x % 256 == bs[|bs| - 1];
      ToFromBytes(init);
    }
  }

  /** Half the range of `n` bytes: the bound of the `n`-byte signed values. */
  function Half(n: nat): (h: nat)
    requires 0 < n
    ensures Pow256(n) == 2 * h && 128 <= h
  {
    128 * Pow256(n - 1)
  }

  /** The two's-complement bit pattern of `v` in `n` bytes. */
  function Unsigned(v: int, n: nat): (u: nat)
    requires 0 < n && -(Half(n) as int) <= v < Half(n)
    ensures u < Pow256(n)
  {
    if v < 0 then v + Pow256(n) else v
  }

  /** The signed value of an `n`-byte two's-complement bit pattern. */
  function Signed(u: nat, n: nat): (v: int)
    requires 0 < n && u < Pow256(n)
    ensures -(Half(n) as int) <= v < Half(n)
  {
    if u >= Half(n) then u - Pow256(n) else u
  }

  lemma SignedUnsigned(v: int, n: nat)
    requires 0 < n && -(Half(n) as int) <= v < Half(n)
    ensures Signed(Unsigned(v, n), n) == v
  {
  }

  // DataOutput.writeByte/writeShort/writeInt/writeLong/writeBoolean.

  function ByteBytes(v: int8): (r: seq<uint8>) ensures |r| == 1 { ToBytes(Unsigned(v, 1), 1) }
  function ShortBytes(v: int16): (r: seq<uint8>) ensures |r| == 2 { ToBytes(Unsigned(v, 2), 2) }
  function IntBytes(v: int32): (r: seq<uint8>) ensures |r| == 4 { ToBytes(Unsigned(v, 4), 4) }
  function LongBytes(v: int64): (r: seq<uint8>) ensures |r| == 8 { ToBytes(Unsigned(v, 8), 8) }

  /** `writeBoolean` writes one byte, 1 for true and 0 for false: non-zero exactly for true. */
  function BooleanBytes(b: bool): (r: seq<uint8>)
    ensures |r| == 1 && r[0] <= 1
    ensures r[0] != 0 <==> b
  {
    if b then [1] else [0]
  }

  // DataInput.readByte/readShort/readInt/readLong on exactly enough bytes.

  function ByteOf(bs: seq<uint8>): int8 requires |bs| == 1 { Signed(FromBytes(bs), 1) }
  function ShortOf(bs: seq<uint8>): int16 requires |bs| == 2 { Signed(FromBytes(bs), 2) }
  function IntOf(bs: seq<uint8>): int32 requires |bs| == 4 { Signed(FromBytes(bs), 4) }
  function LongOf(bs: seq<uint8>): int64 requires |bs| == 8 { Signed(FromBytes(bs), 8) }

  /** `readBoolean` is true for any non-zero byte. */
  function BooleanOf(bs: seq<uint8>): bool requires |bs| == 1 { bs[0] != 0 }

  /** Each fixed-width encoding decodes to the value written. */
  lemma ByteRoundTrip(v: int8)
    ensures ByteOf(ByteBytes(v)) == v
  {
    FromToBytes(Unsigned(v, 1), 1);
    SignedUnsigned(v, 1);
  }

  lemma ShortRoundTrip(v: int16)
    ensures ShortOf(ShortBytes(v)) == v
  {
    FromToBytes(Unsigned(v, 2), 2);
    SignedUnsigned(v, 2);
  }

  lemma IntRoundTrip(v: int32)
    ensures IntOf(IntBytes(v)) == v
  {
    FromToBytes(Unsigned(v, 4), 4);
    SignedUnsigned(v, 4);
  }

  lemma LongRoundTrip(v: int64)
    ensures LongOf(LongBytes(v)) == v
  {
    FromToBytes(Unsigned(v, 8), 8);
    SignedUnsigned(v, 8);
  }

  lemma BooleanRoundTrip(b: bool)
    ensures BooleanOf(BooleanBytes(b)) == b
  {
  }
}
