/** Addition, negation, multiplication, comparison and shifts, done on 16-bit limbs and 32-bit halves. */
module LongArithmetic {
  import opened Bytes
  import opened LongValue

  const LIMB: int := 0x1_0000

  /** `(c16 << 16) | c00`: two 16-bit limbs side by side. */
  function Join(c16: int, c00: int): Int32
    requires 0 <= c16 < LIMB && 0 <= c00 < LIMB
  {
    ToInt32(c16 * LIMB + c00)
  }

  /** `n >>> 16` and `n & 0xFFFF` */
  function HighLimb(n: Int32): (h: int)
    ensures 0 <= h < LIMB
  {
    Unsigned(n) / LIMB
  }

  function LowLimb(n: Int32): (l: int)
    ensures 0 <= l < LIMB
  {
    Unsigned(n) % LIMB
  }

  function FromLimbs(c48: int, c32: int, c16: int, c00: int): int {
    c48 * LIMB * LIMB * LIMB + c32 * LIMB * LIMB + c16 * LIMB + c00
  }

  lemma LimbsAreBits(x: Long)
    ensures x.Bits() == FromLimbs(HighLimb(x.high), LowLimb(x.high), HighLimb(x.low), LowLimb(x.low))
  {
  }

  lemma JoinedBits(c48: int, c32: int, c16: int, c00: int)
    requires 0 <= c48 < LIMB && 0 <= c32 < LIMB && 0 <= c16 < LIMB && 0 <= c00 < LIMB
    ensures Long(Join(c16, c00), Join(c48, c32)).Bits() == FromLimbs(c48, c32, c16, c00)
  {
  }

  /** A result whose bits are a number's residue has that number's wrapped value. */
  lemma FromBits(r: Long, n: int)
    requires r.Bits() == n % TWO_64
    ensures r.Value() == Wrap(n)
  {
    BitsAreValue(r);
  }

  lemma SumOfBits(a: Long, b: Long)
    ensures Wrap(a.Bits() + b.Bits()) == Wrap(a.Value() + b.Value())
  {
    BitsAreValue(a);
    BitsAreValue(b);
    WrapOfSum(a.Bits(), b.Bits());
    WrapOfSum(a.Value(), b.Bits());
  }

  /** Carrying a limb upwards keeps the number. */
  lemma Carried(x3: int, x2: int, x1: int, x0: int, c48: int, c32: int, c16: int, c00: int, k: int)
    requires FromLimbs(x3, x2, x1, x0) == FromLimbs(c48, c32, c16, c00) + k * TWO_64
    requires 0 <= c48 < LIMB && 0 <= c32 < LIMB && 0 <= c16 < LIMB && 0 <= c00 < LIMB
    ensures Long(Join(c16, c00), Join(c48, c32)).Value() == Wrap(FromLimbs(x3, x2, x1, x0))
  {
    var r := Long(Join(c16, c00), Join(c48, c32));
    JoinedBits(c48, c32, c16, c00);
    WrapCongruent(r.Bits(), k);
    FromBits(r, r.Bits());
  }

  method Add(a: Long, b: Long) returns (r: Long)
    ensures r.Value() == Wrap(a.Value() + b.Value())
  {
    var a48, a32, a16, a00 := HighLimb(a.high), LowLimb(a.high), HighLimb(a.low), LowLimb(a.low);
    var b48, b32, b16, b00 := HighLimb(b.high), LowLimb(b.high), HighLimb(b.low), LowLimb(b.low);
    var c48, c32, c16, c00 := 0, 0, 0, 0;
    c00 := c00 + a00 + b00;
    assert 0 <= c00 < TWO_32;
    c16 := c16 + c00 / LIMB;
    c00 := c00 % LIMB;
    c16 := c16 + a16 + b16;
    c32 := c32 + c16 / LIMB;
    c16 := c16 % LIMB;
    c32 := c32 + a32 + b32;
    c48 := c48 + c32 / LIMB;
    c32 := c32 % LIMB;
    c48 := c48 + a48 + b48;
    ghost var carry := c48 / LIMB;
    c48 := c48 % LIMB;
    r := Long(Join(c16, c00), Join(c48, c32));
    assert FromLimbs(a48 + b48, a32 + b32, a16 + b16, a00 + b00) == FromLimbs(c48, c32, c16, c00) + carry * TWO_64;
    Carried(a48 + b48, a32 + b32, a16 + b16, a00 + b00, c48, c32, c16, c00, carry);
    LimbsAreBits(a);
    LimbsAreBits(b);
    SumOfBits(a, b);
  }

  method Negate(a: Long) returns (r: Long)
    ensures r.Value() == Wrap(-(a.Value() as int))
  {
    if a == MIN_VALUE {
      r := MIN_VALUE;
    } else {
      r := Add(a.Not(), ONE);
    }
  }

  method Subtract(a: Long, b: Long) returns (r: Long)
    ensures r.Value() == Wrap(a.Value() - b.Value())
  {
    var n := Negate(b);
    r := Add(a, n);
    WrapOfSum(a.Value(), -(b.Value() as int));
  }

  method Compare(a: Long, b: Long) returns (r: int)
    ensures r == if a.Value() < b.Value() then -1 else if a.Value() > b.Value() then 1 else 0
  {
    if a == b {
      return 0;
    }
    ValueIsInjective(a, b);
    if a.IsNegative() && !b.IsNegative() {
      return -1;
    }
    if !a.IsNegative() && b.IsNegative() {
      return 1;
    }
    var d := Subtract(a, b);
    WrapInRange(a.Value() - b.Value());
    if d.IsNegative() {
      return -1;
    } else {
      return 1;
    }
  }

  /** The integers that `fromNumber` is given; anything beyond the range is clamped. */
  method FromNumber(n: int) returns (r: Long)
    ensures r.Value() == if n < -TWO_63 then -TWO_63 else if n >= TWO_63 then TWO_63 - 1 else n
    decreases n < 0
  {
    if n <= -TWO_63 {
      return MIN_VALUE;
    } else if n + 1 >= TWO_63 {
      return MAX_VALUE;
    } else if n < 0 {
      var p := FromNumber(-n);
      r := Negate(p);
      WrapInRange(n);
    } else {
      r := Long(ToInt32(n % TWO_32), ToInt32(n / TWO_32));
    }
  }

  // ---- multiplication ----------------------------------------------------

  /** The limb products that reach the low 64 bits, and what is carried beyond them. */
  lemma ProductOfLimbs(a3: int, a2: int, a1: int, a0: int, b3: int, b2: int, b1: int, b0: int) returns (beyond: int)
    ensures FromLimbs(a3, a2, a1, a0) * FromLimbs(b3, b2, b1, b0) ==
      FromLimbs(a3 * b0 + a2 * b1 + a1 * b2 + a0 * b3, a2 * b0 + a1 * b1 + a0 * b2, a1 * b0 + a0 * b1, a0 * b0) +
      beyond * TWO_64
  {
    var p33, p32, p31, p23, p22, p13 := a3 * b3, a3 * b2, a3 * b1, a2 * b3, a2 * b2, a1 * b3;
    beyond := p31 + p22 + p13 + (p32 + p23) * LIMB + p33 * LIMB * LIMB;
    var b := FromLimbs(b3, b2, b1, b0);
    ScaleLimbs(a0, b3, b2, b1, b0);
    ScaleLimbs(a1, b3, b2, b1, b0);
    ScaleLimbs(a2, b3, b2, b1, b0);
    ScaleLimbs(a3, b3, b2, b1, b0);
    assert FromLimbs(a3, a2, a1, a0) * b ==
      (a3 * b) * LIMB * LIMB * LIMB + (a2 * b) * LIMB * LIMB + (a1 * b) * LIMB + a0 * b;
  }

  lemma ScaleLimbs(k: int, b3: int, b2: int, b1: int, b0: int)
    ensures k * FromLimbs(b3, b2, b1, b0) == FromLimbs(k * b3, k * b2, k * b1, k * b0)
  {
    assert k * (b3 * LIMB * LIMB * LIMB) == (k * b3) * LIMB * LIMB * LIMB;
    assert k * (b2 * LIMB * LIMB) == (k * b2) * LIMB * LIMB;
    assert k * (b1 * LIMB) == (k * b1) * LIMB;
  }

  lemma ProductOfBits(a: Long, b: Long)
    ensures Wrap(a.Bits() * b.Bits()) == Wrap(a.Value() * b.Value())
  {
    BitsAreValue(a);
    BitsAreValue(b);
    WrapOfProduct(a.Bits(), b.Bits());
    WrapOfProduct(a.Value(), b.Bits());
  }

  /** `c >>> 16` on a number that fits 32 bits. */
  function Shift16(c: int): int
    requires 0 <= c < TWO_32
  {
    c / LIMB
  }

  type Limb = l: int | 0 <= l < LIMB

  type LimbProduct = p: int | 0 <= p <= 0xFFFE_0001

  function Times(a: Limb, b: Limb): LimbProduct {
    assert 0 <= a as int * b as int <= 0xFFFF * 0xFFFF by { MulBounds(a, b); }
    a as int * b as int
  }

  lemma MulBounds(a: int, b: int)
    requires 0 <= a < LIMB && 0 <= b < LIMB
    ensures 0 <= a * b <= 0xFFFF * 0xFFFF
  {
    MulLe(0, a, b);
    MulLe(a, 0xFFFF, b);
  }

  lemma LowBits(n: int, low: int, carry: int)
    requires n == low + carry * TWO_64 && 0 <= low < TWO_64
    ensures low == n % TWO_64
  {
  }

  /**
   * The products added from the lowest limb up with a carry after every addition. Every number that is shifted
   * fits 32 bits; the highest sum is exact in a double.
   */
  method CarryProducts(p0: LimbProduct, p10: LimbProduct, p01: LimbProduct,
                       p20: LimbProduct, p11: LimbProduct, p02: LimbProduct,
                       p30: LimbProduct, p21: LimbProduct, p12: LimbProduct, p03: LimbProduct)
    returns (c48: Limb, c32: Limb, c16: Limb, c00: Limb)
    ensures FromLimbs(c48, c32, c16, c00) ==
      FromLimbs(p30 + p21 + p12 + p03, p20 + p11 + p02, p10 + p01, p0) % TWO_64
  {
    var d48, d32, d16, d00 := 0, 0, 0, 0;
    d00 := d00 + p0;
    d16 := d16 + Shift16(d00);
    d00 := d00 % LIMB;
    d16 := d16 + p10;
    d32 := d32 + Shift16(d16);
    d16 := d16 % LIMB;
    d16 := d16 + p01;
    d32 := d32 + Shift16(d16);
    d16 := d16 % LIMB;
    d32 := d32 + p20;
    d48 := d48 + Shift16(d32);
    d32 := d32 % LIMB;
    d32 := d32 + p11;
    d48 := d48 + Shift16(d32);
    d32 := d32 % LIMB;
    d32 := d32 + p02;
    d48 := d48 + Shift16(d32);
    d32 := d32 % LIMB;
    d48 := d48 + p30 + p21 + p12 + p03;
    assert 0 <= d48 < 0x20_0000_0000_0000;
    ghost var carry := d48 / LIMB;
    d48 := d48 % LIMB;
    c48, c32, c16, c00 := d48, d32, d16, d00;
    LowBits(FromLimbs(p30 + p21 + p12 + p03, p20 + p11 + p02, p10 + p01, p0), FromLimbs(c48, c32, c16, c00), carry);
  }

  /** Four limbs each; products beyond 2^64 are not computed. */
  method MultiplyLimbs(a: Long, b: Long) returns (r: Long)
    ensures r.Value() == Wrap(a.Value() * b.Value())
  {
    var a48, a32, a16, a00 := HighLimb(a.high), LowLimb(a.high), HighLimb(a.low), LowLimb(a.low);
    var b48, b32, b16, b00 := HighLimb(b.high), LowLimb(b.high), HighLimb(b.low), LowLimb(b.low);
    ghost var p0, p1, p2, p3 := a00 * b00, a16 * b00 + a00 * b16, a32 * b00 + a16 * b16 + a00 * b32,
      a48 * b00 + a32 * b16 + a16 * b32 + a00 * b48;
    var c48, c32, c16, c00 := CarryProducts(Times(a00, b00), Times(a16, b00), Times(a00, b16),
      Times(a32, b00), Times(a16, b16), Times(a00, b32),
      Times(a48, b00), Times(a32, b16), Times(a16, b32), Times(a00, b48));
    r := Long(Join(c16, c00), Join(c48, c32));
    Carried(p3, p2, p1, p0, c48, c32, c16, c00, FromLimbs(p3, p2, p1, p0) / TWO_64);
    ghost var beyond := ProductOfLimbs(a48, a32, a16, a00, b48, b32, b16, b00);
    WrapCongruent(FromLimbs(p3, p2, p1, p0), beyond);
    LimbsAreBits(a);
    LimbsAreBits(b);
    ProductOfBits(a, b);
  }

  lemma MinTimes(n: int)
    ensures Wrap(-TWO_63 * n) == if n % 2 == 1 then -TWO_63 else 0
  {
    var k := n / 2;
    if n % 2 == 1 {
      assert -TWO_63 * n == -TWO_63 + (-k) * TWO_64;
      WrapCongruent(-TWO_63, -k);
    } else {
      assert -TWO_63 * n == 0 + (-k) * TWO_64;
      WrapCongruent(0, -k);
    }
  }

  lemma OddBit(a: Long)
    ensures a.IsOdd() <==> a.Value() % 2 == 1
  {
  }

  /** MIN_VALUE times n is MIN_VALUE or zero, by the lowest bit of n. */
  lemma MinProduct(a: Long, b: Long)
    ensures a == MIN_VALUE ==>
      (if b.IsOdd() then MIN_VALUE else ZERO).Value() == Wrap(a.Value() * b.Value()) == Wrap(b.Value() * a.Value())
  {
    if a == MIN_VALUE {
      MinTimes(b.Value());
      OddBit(b);
    }
  }

  lemma ZeroProduct(a: Long, b: Long)
    requires a.IsZero() || b.IsZero()
    ensures ZERO.Value() == Wrap(a.Value() * b.Value())
  {
  }

  lemma BothSigns(x: int, y: int)
    ensures Wrap((-x) * (-y)) == Wrap(x * y)
  {
    assert (-x) * (-y) == x * y;
  }

  /** The sign is taken off one factor before and put back on the product after. */
  lemma OneSign(x: int, y: int)
    ensures Wrap(-(Wrap((-x) * y) as int)) == Wrap(x * y)
    ensures Wrap(-(Wrap(y * (-x)) as int)) == Wrap(y * x)
  {
    assert -((-x) * y) == x * y;
    assert -(y * (-x)) == y * x;
    WrapOfNegation((-x) * y);
    WrapOfNegation(y * (-x));
  }

  lemma NegatedValue(a: Long, p: Long)
    requires a != MIN_VALUE && p.Value() == Wrap(-(a.Value() as int))
    ensures p.Value() == -(a.Value() as int)
  {
    ValueIsInjective(a, MIN_VALUE);
    WrapInRange(-(a.Value() as int));
  }

  method Multiply(a: Long, b: Long) returns (r: Long)
    ensures r.Value() == Wrap(a.Value() * b.Value())
    decreases (if a.IsNegative() then 1 else 0) + (if b.IsNegative() then 1 else 0)
  {
    hide Wrap;
    if a.IsZero() || b.IsZero() {
      ZeroProduct(a, b);
      return ZERO;
    }
    if a == MIN_VALUE {
      MinProduct(a, b);
      return if b.IsOdd() then MIN_VALUE else ZERO;
    } else if b == MIN_VALUE {
      MinProduct(b, a);
      return if a.IsOdd() then MIN_VALUE else ZERO;
    }
    if a.IsNegative() {
      var p := Negate(a);
      NegatedValue(a, p);
      if b.IsNegative() {
        var q := Negate(b);
        NegatedValue(b, q);
        r := Multiply(p, q);
        BothSigns(a.Value(), b.Value());
      } else {
        var m := Multiply(p, b);
        r := Negate(m);
        OneSign(a.Value(), b.Value());
      }
      return;
    } else if b.IsNegative() {
      var q := Negate(b);
      NegatedValue(b, q);
      var m := Multiply(a, q);
      r := Negate(m);
      OneSign(b.Value(), a.Value());
      return;
    }
    var smallA := Compare(a, TWO_PWR_24);
    var smallB := Compare(b, TWO_PWR_24);
    if smallA < 0 && smallB < 0 {
      r := FromNumber(a.Value() * b.Value());
      SmallProduct(a.Value(), b.Value());
      WrapInRange(a.Value() * b.Value());
    } else {
      r := MultiplyLimbs(a, b);
    }
  }

  lemma MulLe(x: int, y: int, k: int)
    requires x <= y && 0 <= k
    ensures x * k <= y * k
  {
  }

  /** Under 2^24 each, the product of the two doubles is exact. */
  lemma SmallProduct(x: int, y: int)
    requires 0 <= x < 0x100_0000 && 0 <= y < 0x100_0000
    ensures 0 <= x * y < TWO_63
  {
    MulLe(0, x, y);
    MulLe(x, 0x100_0000, y);
  }

  // ---- shifts ------------------------------------------------------------

  function Pow2(k: nat): (p: nat)
    ensures p > 0
  {
    if k == 0 then 1 else 2 * Pow2(k - 1)
  }

  lemma {:induction false} Pow2Sum(j: nat, k: nat)
    ensures Pow2(j + k) == Pow2(j) * Pow2(k)
    decreases j
  {
    if j > 0 {
      Pow2Sum(j - 1, k);
      assert 2 * (Pow2(j - 1) * Pow2(k)) == 2 * Pow2(j - 1) * Pow2(k);
    }
  }

  lemma Pow2OfSmall()
    ensures Pow2(1) == 2 && Pow2(8) == 256 && Pow2(16) == 0x1_0000
  {
    assert Pow2(4) == 16;
    Pow2Sum(4, 4);
    Pow2Sum(8, 8);
  }

  lemma Pow2Of32()
    ensures Pow2(32) == TWO_32 && Pow2(31) == 0x8000_0000 && Pow2(64) == TWO_64 && Pow2(63) == TWO_63
  {
    Pow2OfSmall();
    hide Pow2;
    Pow2Sum(16, 16);
    Pow2Sum(32, 32);
    Pow2Sum(31, 1);
    Pow2Sum(63, 1);
  }
}
