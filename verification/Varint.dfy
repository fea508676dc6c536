/** Signed variable-length integers: zigzag, then seven bits to a byte, lowest first. */
module Varint {
  import opened Bytes

  function ZigZag(n: int): nat {
    if n >= 0 then 2 * n else -2 * n - 1
  }

  function UnZigZag(u: nat): int {
    if u % 2 == 1 then -((u + 1) / 2) else u / 2
  }

  function EncodeBase128(u: nat): (b: seq<Byte>)
    ensures b != []
  {
    if u < 128 then [u] else [u % 128 + 128] + EncodeBase128(u / 128)
  }

  datatype Decoded = Incomplete | Number(value: int, used: nat)

  function DecodeBase128(b: seq<Byte>): (d: Decoded)
    ensures d.Number? ==> d.value >= 0 && 0 < d.used <= |b|
  {
    if b == [] then Incomplete
    else if b[0] < 128 then Number(b[0], 1)
    else
      match DecodeBase128(b[1..])
      case Incomplete => Incomplete
      case Number(v, n) => Number(b[0] - 128 + 128 * v, n + 1)
  }

  function Encode(n: int): (b: seq<Byte>)
    ensures b != []
  {
    EncodeBase128(ZigZag(n))
  }

  /** `varint.decode`: a number that runs out of bytes throws. */
  function Decode(b: seq<Byte>): (d: Decoded)
    ensures d.Number? ==> 0 < d.used <= |b|
  {
    match DecodeBase128(b)
    case Incomplete => Incomplete
    case Number(u, n) => Number(UnZigZag(u), n)
  }

  lemma {:induction false} Base128RoundTrip(u: nat, rest: seq<Byte>)
    ensures DecodeBase128(EncodeBase128(u) + rest) == Number(u, |EncodeBase128(u)|)
    decreases u
  {
    var b := EncodeBase128(u) + rest;
    if u >= 128 {
      assert b[1..] == EncodeBase128(u / 128) + rest;
      Base128RoundTrip(u / 128, rest);
    }
  }

  /** Decoding an encoded number, whatever follows, gives the number and stops behind it. */
  lemma RoundTrip(n: int, rest: seq<Byte>)
    ensures Decode(Encode(n) + rest) == Number(n, |Encode(n)|)
  {
    Base128RoundTrip(ZigZag(n), rest);
  }

  /** No encoding is the beginning of another one. */
  lemma PrefixFree(m: int, n: int, rest: seq<Byte>)
    requires Encode(m) == Encode(n) + rest
    ensures m == n && rest == []
  {
    RoundTrip(m, []);
    RoundTrip(n, rest);
    assert Encode(m) + [] == Encode(n) + rest;
  }
}
