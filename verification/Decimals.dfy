/** Decimals: two's complement bytes of any length, read by flipping them in place. */
module Decimals {
  import opened Bytes
  import opened LongValue

  /** The bytes as a big-endian number without sign, as `BigInteger.fromBuffer` takes them. */
  function Magnitude(b: seq<Byte>): nat {
    if b == [] then 0 else Magnitude(b[..|b| - 1]) * 256 + b[|b| - 1]
  }

  function Range(n: nat): nat {
    if n == 0 then 1 else 256 * Range(n - 1)
  }

  predicate IsNegative(b: seq<Byte>) {
    b != [] && b[0] >= 128
  }

  /** What the bytes mean. */
  function TwosComplement(b: seq<Byte>): int {
    if IsNegative(b) then Magnitude(b) - Range(|b|) else Magnitude(b)
  }

  /** Every byte with its bits turned over. */
  function Flipped(b: seq<Byte>): (r: seq<Byte>)
    ensures |r| == |b| && forall i :: 0 <= i < |b| ==> r[i] == 255 - b[i]
  {
    if b == [] then [] else Flipped(b[..|b| - 1]) + [255 - b[|b| - 1]]
  }

  /** The number before its scale is applied; `longValue` keeps the low 64 bits. */
  function Unscaled(b: seq<Byte>): int {
    if IsNegative(b) then Wrap(0 - Magnitude(Flipped(b))) - 1 else Wrap(Magnitude(b))
  }

  function PowerOfTen(scale: int): (p: nat)
    ensures p >= 1
    decreases if scale > 0 then scale else 0
  {
    if scale <= 0 then 1 else 10 * PowerOfTen(scale - 1)
  }

  /** The bytes as `decimalRead` leaves them. */
  function Left(b: seq<Byte>): seq<Byte> {
    if IsNegative(b) then Flipped(b) else b
  }

  method FlipInPlace(buffer: array<Byte>)
    modifies buffer
    ensures buffer[..] == Flipped(old(buffer[..]))
  {
    ghost var before := buffer[..];
    for cur := 0 to buffer.Length
      invariant buffer[..cur] == Flipped(before)[..cur] && buffer[cur..] == before[cur..]
    {
      buffer[cur] := 255 - buffer[cur];
    }
  }

  /** `realScale` after its loop */
  method ScaleUp(scale: int) returns (realScale: nat)
    ensures realScale == PowerOfTen(scale)
  {
    realScale := 1;
    var left := scale;
    while left > 0
      invariant realScale * PowerOfTen(left) == PowerOfTen(scale)
    {
      Shifted(realScale, PowerOfTen(left - 1));
      realScale, left := realScale * 10, left - 1;
    }
  }

  lemma Shifted(a: nat, b: nat)
    ensures a * (10 * b) == a * 10 * b
  {
  }

  /** `decimalRead`: the bytes of a negative number stay flipped. */
  method DecimalRead(buffer: array<Byte>, scale: int) returns (value: real)
    modifies buffer
    ensures value == Unscaled(old(buffer[..])) as real / PowerOfTen(scale) as real
    ensures buffer[..] == Left(old(buffer[..]))
  {
    hide Magnitude, Wrap, Flipped, PowerOfTen;
    var num: int;
    if buffer.Length == 0 || buffer[0] < 128 {
      num := Wrap(Magnitude(buffer[..]));
    } else {
      FlipInPlace(buffer);
      num := Wrap(0 - Magnitude(buffer[..]));
      num := num - 1;
    }
    var realScale := ScaleUp(scale);
    value := num as real / realScale as real;
  }

  lemma {:induction false} FlippedMagnitude(b: seq<Byte>)
    ensures Magnitude(b) + Magnitude(Flipped(b)) == Range(|b|) - 1
    decreases |b|
  {
    if b != [] {
      var front := b[..|b| - 1];
      FlippedMagnitude(front);
      assert Flipped(b)[..|b| - 1] == Flipped(front);
    }
  }

  lemma {:induction false} MagnitudeBounds(b: seq<Byte>)
    ensures Magnitude(b) < Range(|b|)
    ensures b != [] && b[0] < 128 ==> 2 * Magnitude(b) < Range(|b|)
    ensures IsNegative(b) ==> 2 * Magnitude(b) >= Range(|b|)
    decreases |b|
  {
    if b != [] {
      var front := b[..|b| - 1];
      MagnitudeBounds(front);
      if front == [] {
        assert Range(1) == 256 * Range(0);
      } else {
        assert front[0] == b[0];
      }
    }
  }

  /**
   * The number read is the two's complement value exactly when that value lies between -2^63 - 1 and 2^63 - 1,
   * however many bytes it was sent in.
   */
  lemma ReadExactlyIff(b: seq<Byte>)
    ensures Unscaled(b) == TwosComplement(b) <==> -TWO_63 - 1 <= TwosComplement(b) < TWO_63
  {
    hide Magnitude, Range;
    FlippedMagnitude(b);
    MagnitudeBounds(b);
    if IsNegative(b) {
      WrapInRange(0 - Magnitude(Flipped(b)));
    } else {
      WrapInRange(Magnitude(b));
    }
  }

  /** Since the bytes of a negative number stay flipped, a second read gives the number again exactly when it is not negative. */
  lemma SecondReadSameIff(b: seq<Byte>)
    ensures Unscaled(Left(b)) == Unscaled(b) <==> !IsNegative(b)
  {
    hide Magnitude, Range, Wrap;
    if IsNegative(b) {
      var m := Magnitude(Flipped(b));
      assert !IsNegative(Flipped(b));
      WrapOfNegation(m);
      NeverItsComplement(Wrap(m));
    }
  }

  lemma NeverItsComplement(v: Int64)
    ensures v != Wrap(-(v as int)) - 1
  {
  }

  /** The two reads of a negative number that fits 64 bits are complements of each other. */
  lemma SecondReadIsComplement(b: seq<Byte>)
    requires IsNegative(b) && -TWO_63 <= TwosComplement(b)
    ensures Unscaled(Left(b)) == -TwosComplement(b) - 1 >= 0
  {
    hide Magnitude, Range;
    FlippedMagnitude(b);
    MagnitudeBounds(b);
    WrapInRange(Magnitude(Flipped(b)));
  }
}
