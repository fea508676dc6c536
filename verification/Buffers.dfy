/** Writing encodings into a buffer, each into its own window. */
module Buffers {
  import opened Bytes
  import opened WireFormat
  import Varint
  import LongValue
  import LongArithmetic

  /** The buffer with some bytes in place of as many others; nothing else changes. */
  function Splice(b: seq<Byte>, offset: nat, data: seq<Byte>): (r: seq<Byte>)
    requires offset + |data| <= |b|
    ensures |r| == |b|
  {
    b[..offset] + data + b[offset + |data|..]
  }

  lemma SpliceNext(b: seq<Byte>, offset: nat, data: seq<Byte>, x: Byte)
    requires offset + |data| < |b|
    ensures Splice(b, offset, data)[offset + |data| := x] == Splice(b, offset, data + [x])
  {
  }

  lemma SpliceTwo(b: seq<Byte>, offset: nat, first: seq<Byte>, second: seq<Byte>)
    requires offset + |first| + |second| <= |b|
    ensures Splice(Splice(b, offset, first), offset + |first|, second) == Splice(b, offset, first + second)
  {
  }

  lemma SpliceEnd(b: seq<Byte>, offset: nat, data: seq<Byte>)
    requires offset + |data| <= |b|
    ensures Splice(b, offset, data)[..offset + |data|] == b[..offset] + data
  {
  }

  method Copy(data: seq<Byte>, buffer: array<Byte>, offset: nat)
    requires offset + |data| <= buffer.Length
    modifies buffer
    ensures buffer[..] == Splice(old(buffer[..]), offset, data)
  {
    assert buffer[..] == Splice(old(buffer[..]), offset, data[..0]);
    for i := 0 to |data|
      invariant buffer[..] == Splice(old(buffer[..]), offset, data[..i])
    {
      SpliceNext(old(buffer[..]), offset, data[..i], data[i]);
      assert data[..i] + [data[i]] == data[..i + 1];
      buffer[offset + i] := data[i];
    }
    assert data[..|data|] == data;
  }

  method WriteInt32BE(n: Int32, buffer: array<Byte>, offset: nat)
    requires offset + 4 <= buffer.Length
    modifies buffer
    ensures buffer[..] == Splice(old(buffer[..]), offset, EncodeInt32(n))
  {
    Copy(EncodeInt32(n), buffer, offset);
  }

  /** `varint.encode(data, buffer, offset)`: seven bits at a time while more remain. */
  method WriteVarint(n: int, buffer: array<Byte>, offset: nat) returns (size: nat)
    requires offset + |Varint.Encode(n)| <= buffer.Length
    modifies buffer
    ensures size == |Varint.Encode(n)|
    ensures buffer[..] == Splice(old(buffer[..]), offset, Varint.Encode(n))
  {
    var rest := Varint.ZigZag(n);
    ghost var done: seq<Byte> := [];
    size := 0;
    assert buffer[..] == Splice(old(buffer[..]), offset, done);
    while rest >= 128
      invariant size == |done|
      invariant done + Varint.EncodeBase128(rest) == Varint.Encode(n)
      invariant buffer[..] == Splice(old(buffer[..]), offset, done)
      decreases rest
    {
      ghost var next := [rest % 128 + 128];
      assert done + (next + Varint.EncodeBase128(rest / 128)) == done + next + Varint.EncodeBase128(rest / 128);
      SpliceNext(old(buffer[..]), offset, done, rest % 128 + 128);
      buffer[offset + size] := rest % 128 + 128;
      done := done + next;
      size := size + 1;
      rest := rest / 128;
    }
    SpliceNext(old(buffer[..]), offset, done, rest);
    buffer[offset + size] := rest;
    size := size + 1;
  }

  method WriteLong(n: int, buffer: array<Byte>, offset: nat)
    requires offset + 8 <= buffer.Length
    modifies buffer
    ensures buffer[..] == Splice(old(buffer[..]), offset, EncodeInt64(Clamp(n)))
  {
    hide Splice, EncodeInt32, EncodeInt64;
    var long := LongArithmetic.FromNumber(n);
    WriteInt32BE(long.high, buffer, offset);
    WriteInt32BE(long.low, buffer, offset + 4);
    SpliceTwo(old(buffer[..]), offset, EncodeInt32(long.high), EncodeInt32(long.low));
    HalvesOfLong(long);
  }

  method WriteBytes(data: seq<Byte>, buffer: array<Byte>, offset: nat)
    requires |data| < 0x8000_0000 && offset + 4 + |data| <= buffer.Length
    modifies buffer
    ensures buffer[..] == Splice(old(buffer[..]), offset, EncodeInt32(|data|) + data)
  {
    hide Splice;
    WriteInt32BE(|data|, buffer, offset);
    Copy(data, buffer, offset + 4);
    SpliceTwo(old(buffer[..]), offset, EncodeInt32(|data|), data);
  }

  method WriteVarintBytes(data: seq<Byte>, buffer: array<Byte>, offset: nat)
    requires offset + |Varint.Encode(|data|)| + |data| <= buffer.Length
    modifies buffer
    ensures buffer[..] == Splice(old(buffer[..]), offset, Varint.Encode(|data|) + data)
  {
    hide Splice;
    var size := WriteVarint(|data|, buffer, offset);
    Copy(data, buffer, offset + size);
    SpliceTwo(old(buffer[..]), offset, Varint.Encode(|data|), data);
  }

  /** The second half of a write command: put its bytes into the window it was given. */
  method WriteAt(op: WriteOp, buffer: array<Byte>, offset: nat)
    requires Writable(op) && offset + Size(op) <= buffer.Length
    modifies buffer
    ensures buffer[..] == Splice(old(buffer[..]), offset, Encoding(op))
  {
    hide Splice;
    match op
    case PutByte(d) => Copy([d % 256], buffer, offset);
    case PutBoolean(f) => Copy([if f then 1 else 0], buffer, offset);
    case PutChar(c) => Copy([c % 256], buffer, offset);
    case PutShort(n) => Copy(EncodeInt16(n), buffer, offset);
    case PutInt(n) => WriteInt32BE(n, buffer, offset);
    case PutLong(n) => WriteLong(n, buffer, offset);
    case PutDouble(d) => Copy(d, buffer, offset);
    case PutVarint(n) => var _ := WriteVarint(n, buffer, offset);
    case PutBytes(c) => WriteBytes(c, buffer, offset);
    case PutVarintBytes(c) => WriteVarintBytes(c, buffer, offset);
  }

  lemma HalvesOfLong(x: LongValue.Long)
    ensures EncodeInt32(x.high) + EncodeInt32(x.low) == EncodeInt64(x.Value())
  {
    hide EncodeUInt32;
  }
}
