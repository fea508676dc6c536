/** A 64-bit two's complement integer kept as two signed 32-bit halves, and what it denotes. */
module LongValue {
  import opened Bytes

  /** `n | 0`: the signed 32-bit number with the same low bits. */
  function ToInt32(n: int): Int32 {
    var u := n % TWO_32;
    if u < 0x8000_0000 then u else u - TWO_32
  }

  /** `n >>> 0` */
  function Unsigned(n: Int32): (u: int)
    ensures 0 <= u < TWO_32
  {
    if n < 0 then n + TWO_32 else n
  }

  /** The signed 64-bit number congruent to n modulo 2^64. */
  function Wrap(n: int): Int64 {
    var u := n % TWO_64;
    if u < TWO_63 then u else u - TWO_64
  }

  datatype Long = Long(low: Int32, high: Int32) {

    /** The two halves as one unsigned 64-bit number. */
    function Bits(): (u: int)
      ensures 0 <= u < TWO_64
    {
      Unsigned(high) * TWO_32 + Unsigned(low)
    }

    /** What the number means; `toNumber` rounds it to a double. */
    function Value(): Int64 {
      high * TWO_32 + Unsigned(low)
    }

    predicate IsZero() {
      high == 0 && low == 0
    }

    predicate IsNegative() {
      high < 0
    }

    /** `(low & 1) == 1` */
    predicate IsOdd() {
      low % 2 == 1
    }

    /** `~low` and `~high` */
    function Not(): Long {
      Long(-1 - low as int, -1 - high as int)
    }
  }

  /** The one Long with a given value. */
  function OfValue(v: Int64): (x: Long)
    ensures x.Value() == v
  {
    Long(ToInt32(v), v / TWO_32)
  }

  const ZERO: Long := Long(0, 0)
  const ONE: Long := Long(1, 0)
  const NEG_ONE: Long := Long(-1, -1)
  const MAX_VALUE: Long := Long(-1, 0x7FFF_FFFF)
  const MIN_VALUE: Long := Long(0, -0x8000_0000)
  const TWO_PWR_24: Long := Long(0x100_0000, 0)

  lemma BitsAreValue(x: Long)
    ensures x.Value() == Wrap(x.Bits())
    ensures x.Bits() == x.Value() % TWO_64
    ensures x.Bits() == if x.high < 0 then x.Value() + TWO_64 else x.Value()
  {
  }

  lemma ValueIsInjective(x: Long, y: Long)
    ensures x.Value() == y.Value() ==> x == y
  {
  }

  lemma WrapInRange(n: int)
    ensures -TWO_63 <= n < TWO_63 ==> Wrap(n) == n
    ensures -TWO_63 <= n < 0 ==> n % TWO_64 == n + TWO_64
  {
  }

  /** Wrapping only depends on the residue modulo 2^64. */
  lemma WrapCongruent(n: int, k: int)
    ensures Wrap(n + k * TWO_64) == Wrap(n)
    ensures (n + k * TWO_64) % TWO_64 == n % TWO_64
  {
  }

  /** A wrapped number differs from the number by a multiple of 2^64. */
  lemma WrapMultiple(n: int) returns (k: int)
    ensures Wrap(n) == n + k * TWO_64
  {
    k := if n % TWO_64 < TWO_63 then -(n / TWO_64) else -(n / TWO_64) - 1;
  }

  lemma WrapOfSum(x: int, y: int)
    ensures Wrap(Wrap(x) + y) == Wrap(x + y)
    ensures Wrap(x + Wrap(y)) == Wrap(x + y)
  {
    var k := WrapMultiple(x);
    var l := WrapMultiple(y);
    WrapCongruent(x + y, k);
    WrapCongruent(x + y, l);
  }

  lemma WrapOfNegation(x: int)
    ensures Wrap(-(Wrap(x) as int)) == Wrap(-x)
  {
    var k := WrapMultiple(x);
    WrapCongruent(-x, -k);
  }

  lemma WrapOfProduct(x: int, y: int)
    ensures Wrap(Wrap(x) * y) == Wrap(x * y)
    ensures Wrap(x * Wrap(y)) == Wrap(x * y)
  {
    var k := WrapMultiple(x);
    var l := WrapMultiple(y);
    assert (x + k * TWO_64) * y == x * y + (k * y) * TWO_64;
    assert x * (y + l * TWO_64) == x * y + (x * l) * TWO_64;
    WrapCongruent(x * y, k * y);
    WrapCongruent(x * y, x * l);
  }
}
