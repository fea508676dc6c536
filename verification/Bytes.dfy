/** Bytes and the big-endian fixed-width integers that a Node.js Buffer reads and writes. */
module Bytes {

  type Byte = b: int | 0 <= b < 256

  const TWO_16: int := 0x1_0000
  const TWO_32: int := 0x1_0000_0000
  const TWO_63: int := 0x8000_0000_0000_0000
  const TWO_64: int := 0x1_0000_0000_0000_0000

  type Int16 = n: int | -0x8000 <= n < 0x8000
  type Int32 = n: int | -0x8000_0000 <= n < 0x8000_0000
  type Int64 = n: int | -TWO_63 <= n < TWO_63

  /** readInt8: a byte read as a signed number. */
  function SignedByte(b: Byte): int {
    if b < 128 then b else b - 256
  }

  /** readInt16BE */
  function ReadInt16(b: seq<Byte>): Int16
    requires |b| >= 2
  {
    var n: int := b[0] as int * 256 + b[1] as int;
    if n < 0x8000 then n else n - TWO_16
  }

  /** readUInt32BE */
  function ReadUInt32(b: seq<Byte>): (n: int)
    requires |b| >= 4
    ensures 0 <= n < TWO_32
  {
    b[0] as int * 0x100_0000 + b[1] as int * 0x1_0000 + b[2] as int * 0x100 + b[3] as int
  }

  /** readInt32BE */
  function ReadInt32(b: seq<Byte>): Int32
    requires |b| >= 4
  {
    var n := ReadUInt32(b);
    if n < 0x8000_0000 then n else n - TWO_32
  }

  /** A long read as a signed high word and an unsigned low word. */
  function ReadInt64(b: seq<Byte>): Int64
    requires |b| >= 8
  {
    ReadInt32(b) * TWO_32 + ReadUInt32(b[4..])
  }

  function EncodeInt16(n: Int16): (b: seq<Byte>)
    ensures |b| == 2
  {
    var u := if n < 0 then n + TWO_16 else n;
    [u / 256, u % 256]
  }

  function EncodeUInt32(u: int): (b: seq<Byte>)
    requires 0 <= u < TWO_32
    ensures |b| == 4
  {
    [u / 0x100_0000, u / 0x1_0000 % 256, u / 0x100 % 256, u % 256]
  }

  function EncodeInt32(n: Int32): (b: seq<Byte>)
    ensures |b| == 4
  {
    EncodeUInt32(if n < 0 then n + TWO_32 else n)
  }

  function EncodeInt64(n: Int64): (b: seq<Byte>)
    ensures |b| == 8
  {
    EncodeInt32(n / TWO_32) + EncodeUInt32(n % TWO_32)
  }

  lemma Int16RoundTrip(n: Int16, rest: seq<Byte>)
    ensures ReadInt16(EncodeInt16(n) + rest) == n
  {
    var b := EncodeInt16(n) + rest;
    assert b[0] == EncodeInt16(n)[0] && b[1] == EncodeInt16(n)[1];
  }

  lemma UInt32RoundTrip(u: int, rest: seq<Byte>)
    requires 0 <= u < TWO_32
    ensures ReadUInt32(EncodeUInt32(u) + rest) == u
  {
    var e, b := EncodeUInt32(u), EncodeUInt32(u) + rest;
    assert b[0] == e[0] && b[1] == e[1] && b[2] == e[2] && b[3] == e[3];
  }

  lemma Int32RoundTrip(n: Int32, rest: seq<Byte>)
    ensures ReadInt32(EncodeInt32(n) + rest) == n
  {
    UInt32RoundTrip(if n < 0 then n + TWO_32 else n, rest);
  }

  lemma Int64RoundTrip(n: Int64, rest: seq<Byte>)
    ensures ReadInt64(EncodeInt64(n) + rest) == n
  {
    var high, low := n / TWO_32, n % TWO_32;
    var b := EncodeInt64(n) + rest;
    assert b == EncodeInt32(high) + (EncodeUInt32(low) + rest);
    assert b[4..] == EncodeUInt32(low) + rest;
    Int32RoundTrip(high, EncodeUInt32(low) + rest);
    UInt32RoundTrip(low, rest);
  }

  /** Big-endian reads look at a fixed prefix: bytes that arrive later do not change them. */
  lemma ReadsAreLocal(b: seq<Byte>, more: seq<Byte>)
    ensures |b| >= 2 ==> ReadInt16(b + more) == ReadInt16(b)
    ensures |b| >= 4 ==> ReadInt32(b + more) == ReadInt32(b)
    ensures |b| >= 8 ==> ReadInt64(b + more) == ReadInt64(b)
  {
    if |b| >= 8 {
      assert (b + more)[4..] == b[4..] + more;
      assert forall i :: 0 <= i < 4 ==> (b + more)[4..][i] == b[4..][i];
    }
  }
}
