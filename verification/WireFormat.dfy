/** The write commands an operation queues, and the bytes each of them stands for. */
module WireFormat {
  import opened Bytes
  import Varint

  /** An IEEE double, kept as its eight bytes. */
  type Double = b: seq<Byte> | |b| == 8 witness [0, 0, 0, 0, 0, 0, 0, 0]

  datatype WriteOp =
    | PutByte(data: int)
    | PutBoolean(flag: bool)
    | PutChar(code: nat)
    | PutShort(short: Int16)
    | PutInt(int32: Int32)
    | PutLong(number: int)
    | PutDouble(bits: Double)
    | PutVarint(number: int)
    | PutBytes(bytes: seq<Byte>)
    | PutVarintBytes(bytes: seq<Byte>)

  /** `Long.fromNumber` keeps numbers inside the 64-bit range. */
  function Clamp(n: int): Int64 {
    if n < -TWO_63 then -TWO_63 else if n >= TWO_63 then TWO_63 - 1 else n
  }

  /** A length field is a signed 32-bit integer: `writeInt32BE` throws for anything longer. */
  predicate Writable(op: WriteOp) {
    op.PutBytes? ==> |op.bytes| < 0x8000_0000
  }

  function Size(op: WriteOp): nat {
    match op
    case PutByte(_) => 1
    case PutBoolean(_) => 1
    case PutChar(_) => 1
    case PutShort(_) => 2
    case PutInt(_) => 4
    case PutLong(_) => 8
    case PutDouble(_) => 8
    case PutVarint(n) => |Varint.Encode(n)|
    case PutBytes(c) => 4 + |c|
    case PutVarintBytes(c) => |Varint.Encode(|c|)| + |c|
  }

  function Encoding(op: WriteOp): (b: seq<Byte>)
    requires Writable(op)
    ensures |b| == Size(op)
  {
    match op
    case PutByte(d) => [d % 256]
    case PutBoolean(f) => [if f then 1 else 0]
    case PutChar(c) => [c % 256]
    case PutShort(n) => EncodeInt16(n)
    case PutInt(n) => EncodeInt32(n)
    case PutLong(n) => EncodeInt64(Clamp(n))
    case PutDouble(d) => d
    case PutVarint(n) => Varint.Encode(n)
    case PutBytes(c) => EncodeInt32(|c|) + c
    case PutVarintBytes(c) => Varint.Encode(|c|) + c
  }

  predicate AllWritable(ops: seq<WriteOp>) {
    forall i :: 0 <= i < |ops| ==> Writable(ops[i])
  }

  /** What a queue of commands stands for: their encodings one after the other. */
  function Encodings(ops: seq<WriteOp>): (b: seq<Byte>)
    requires AllWritable(ops)
    ensures |b| == TotalSize(ops)
  {
    if ops == [] then [] else Encodings(ops[..|ops| - 1]) + Encoding(ops[|ops| - 1])
  }

  function TotalSize(ops: seq<WriteOp>): nat {
    if ops == [] then 0 else TotalSize(ops[..|ops| - 1]) + Size(ops[|ops| - 1])
  }

  lemma OneMore(ops: seq<WriteOp>, op: WriteOp)
    requires AllWritable(ops) && Writable(op)
    ensures AllWritable(ops + [op]) && Encodings(ops + [op]) == Encodings(ops) + Encoding(op)
  {
    assert (ops + [op])[..|ops|] == ops;
  }

  lemma OneMoreSize(ops: seq<WriteOp>, op: WriteOp)
    ensures TotalSize(ops + [op]) == TotalSize(ops) + Size(op)
  {
    assert (ops + [op])[..|ops|] == ops;
  }

  lemma {:induction false} SizeGrows(ops: seq<WriteOp>, i: nat)
    requires i <= |ops|
    ensures TotalSize(ops[..i]) <= TotalSize(ops)
    decreases |ops|
  {
    if i < |ops| {
      var front := ops[..|ops| - 1];
      SizeGrows(front, i);
      assert front[..i] == ops[..i];
    } else {
      assert ops[..i] == ops;
    }
  }

  /** A long written and read back is the same number, for every number in the 64-bit range. */
  lemma LongRoundTrip(n: int, rest: seq<Byte>)
    requires -TWO_63 <= n < TWO_63
    ensures ReadInt64(Encoding(PutLong(n)) + rest) == n
  {
    Int64RoundTrip(n, rest);
  }

  /** So are integers and shorts, a flag is 1 or 0, and a byte or a character exactly when it fits its one byte. */
  lemma SmallRoundTrips(op: WriteOp, rest: seq<Byte>)
    requires Writable(op)
    ensures op.PutInt? ==> ReadInt32(Encoding(op) + rest) == op.int32
    ensures op.PutShort? ==> ReadInt16(Encoding(op) + rest) == op.short
    ensures op.PutBoolean? ==> (Encoding(op) + rest)[0] == if op.flag then 1 else 0
    ensures op.PutByte? ==> (SignedByte((Encoding(op) + rest)[0]) == op.data <==> -128 <= op.data < 128)
    ensures op.PutChar? ==> ((Encoding(op) + rest)[0] == op.code <==> op.code < 256)
  {
    match op
    case PutInt(n) => Int32RoundTrip(n, rest);
    case PutShort(n) => Int16RoundTrip(n, rest);
    case _ =>
  }

  /** Bytes are found behind their length, whichever way the length is written. */
  lemma BytesRoundTrip(op: WriteOp, rest: seq<Byte>)
    requires Writable(op) && (op.PutBytes? || op.PutVarintBytes?)
    ensures op.PutBytes? ==>
      ReadInt32(Encoding(op) + rest) == |op.bytes| && (Encoding(op) + rest)[4..] == op.bytes + rest
    ensures op.PutVarintBytes? ==>
      var length := Varint.Decode(Encoding(op) + rest);
      length.Number? && length.value == |op.bytes| && (Encoding(op) + rest)[length.used..] == op.bytes + rest
  {
    match op
    case PutBytes(c) =>
      Int32RoundTrip(|c|, c + rest);
      assert Encoding(op) + rest == EncodeInt32(|c|) + (c + rest);
    case PutVarintBytes(c) =>
      Varint.RoundTrip(|c|, c + rest);
      assert Encoding(op) + rest == Varint.Encode(|c|) + (c + rest);
  }

  /** The order of the bytes and the zigzag, on numbers whose bytes differ. */
  lemma KnownBytes()
    ensures EncodeInt32(0x0102_0304) == [1, 2, 3, 4] && EncodeInt32(-2) == [255, 255, 255, 254]
    ensures EncodeInt16(0x0102) == [1, 2] && EncodeInt16(-2) == [255, 254]
    ensures EncodeInt64(0x0102_0304_0506_0708) == [1, 2, 3, 4, 5, 6, 7, 8]
    ensures Varint.Encode(0) == [0] && Varint.Encode(-1) == [1] && Varint.Encode(1) == [2]
    ensures Varint.Encode(-64) == [127] && Varint.Encode(64) == [128, 1] && Varint.Encode(-65) == [129, 1]
  {
    assert 0x0102_0304_0506_0708 == 0x0102_0304 * TWO_32 + 0x0506_0708;
    assert 0x0102_0304_0506_0708 % TWO_32 == 0x0506_0708;
    assert Varint.EncodeBase128(1) == [1];
  }
}
