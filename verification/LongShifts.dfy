/** Shifts and bit counts of 64-bit integers. The `|` of disjoint bit ranges is written as a sum. */
module LongShifts {
  import opened Bytes
  import opened LongValue
  import opened LongArithmetic

  /** `low << k` and `(high << k) | (low >>> (32 - k))`, with p and q the two powers of two. */
  function LeftBy(x: Long, p: int, q: int): Long
    requires q > 0
  {
    Long(ToInt32(x.low * p), ToInt32(x.high * p + Unsigned(x.low) / q))
  }

  /** `(low >>> k) | (high << (32 - k))` below the given high half. */
  function RightBy(x: Long, p: int, q: int, high: int): Long
    requires p > 0
  {
    Long(ToInt32(Unsigned(x.low) / p + x.high * q), ToInt32(high))
  }

  function ShiftLeft(x: Long, numBits: int): Long {
    var k := numBits % 64;
    if k == 0 then x
    else if k < 32 then LeftBy(x, Pow2(k), Pow2(32 - k))
    else Long(0, ToInt32(x.low * Pow2(k - 32)))
  }

  function ShiftRight(x: Long, numBits: int): Long {
    var k := numBits % 64;
    if k == 0 then x
    else if k < 32 then RightBy(x, Pow2(k), Pow2(32 - k), x.high / Pow2(k))
    else Long(ToInt32(x.high / Pow2(k - 32)), if x.high >= 0 then 0 else -1)
  }

  function ShiftRightUnsigned(x: Long, numBits: int): Long {
    var k := numBits % 64;
    if k == 0 then x
    else if k < 32 then RightBy(x, Pow2(k), Pow2(32 - k), Unsigned(x.high) / Pow2(k))
    else if k == 32 then Long(x.high, 0)
    else Long(ToInt32(Unsigned(x.high) / Pow2(k - 32)), 0)
  }

  // ---- division facts ----------------------------------------------------

  lemma MulPositive(x: int, y: int)
    requires 0 <= x && 0 <= y
    ensures 0 <= x * y
  {
  }

  /** Quotient and remainder are the only ones. */
  lemma DivMod(x: int, d: int, q: int, r: int)
    requires 0 < d && x == d * q + r && 0 <= r < d
    ensures x / d == q && x % d == r
  {
    var q2, r2 := x / d, x % d;
    assert x == d * q2 + r2 && 0 <= r2 < d;
    assert d * (q - q2) == r2 - r by { assert d * (q - q2) == d * q - d * q2; }
    if q > q2 {
      MulLe(1, q - q2, d);
    } else if q < q2 {
      MulLe(q - q2, -1, d);
    }
  }

  lemma HalfBits(n: int)
    ensures Unsigned(ToInt32(n)) == n % TWO_32
    ensures 0 <= n < TWO_32 ==> n % TWO_32 == n
  {
  }

  lemma HighResidue(x: Long, k: int)
    ensures (x.high * k) % TWO_32 == (Unsigned(x.high) * k) % TWO_32
  {
    if x.high < 0 {
      assert Unsigned(x.high) * k == x.high * k + k * TWO_32 by { assert Unsigned(x.high) == x.high + TWO_32; }
      assert (x.high * k + k * TWO_32) % TWO_32 == (x.high * k) % TWO_32;
    }
  }

  lemma LowResidue(x: Long, k: int)
    ensures (x.low * k) % TWO_32 == (Unsigned(x.low) * k) % TWO_32
  {
    HighResidue(Long(0, x.low), k);
  }

  // ---- shifting left -----------------------------------------------------

  /** A word times p splits into the bits that stay and those that move up. */
  lemma SplitWord(l: int, p: int, q: int)
    requires 0 < p && 0 < q && p * q == TWO_32 && 0 <= l < TWO_32
    ensures 0 <= l / q < p && 0 <= (l % q) * p < TWO_32
    ensures l * p == (l / q) * TWO_32 + (l % q) * p
    ensures (l * p) % TWO_32 == (l % q) * p
  {
    var h, r := l / q, l % q;
    assert l == q * h + r;
    assert l * p == h * (p * q) + r * p by { assert (q * h) * p == h * (p * q); }
    MulPositive(r, p);
    MulLe(r, q - 1, p);
    assert (q - 1) * p == p * q - p;
    if h >= p {
      MulLe(p, h, q);
    }
    if h < 0 {
      MulLe(h, -1, q);
    }
    DivMod(l * p, TWO_32, h, r * p);
  }

  lemma ResidueOfSum(m: int, n: int, d: int)
    requires m % TWO_32 == n % TWO_32
    ensures (m + d) % TWO_32 == (n + d) % TWO_32
  {
  }

  lemma TwoWords(h: int, l: int)
    requires 0 <= l < TWO_32
    ensures (h * TWO_32 + l) % TWO_64 == (h % TWO_32) * TWO_32 + l
  {
  }

  /** The half words after a shift by less than 32, where p is the power and q its complement. */
  lemma HalvesLeft(x: Long, p: int, q: int)
    requires 0 < p && 0 < q && p * q == TWO_32
    ensures var h, l := Unsigned(x.high), Unsigned(x.low);
      && Unsigned(ToInt32(x.low * p)) == (l % q) * p
      && Unsigned(ToInt32(x.high * p + l / q)) == (h * p + l / q) % TWO_32
  {
    hide ToInt32;
    var h, l := Unsigned(x.high), Unsigned(x.low);
    SplitWord(l, p, q);
    HalfBits(x.low * p);
    LowResidue(x, p);
    HalfBits(x.high * p + l / q);
    HighResidue(x, p);
    ResidueOfSum(x.high * p, h * p, l / q);
  }

  lemma WordsTimes(h: int, l: int, p: int, up: int, stay: int)
    requires l * p == up * TWO_32 + stay && 0 <= stay < TWO_32
    ensures ((h * TWO_32 + l) * p) % TWO_64 == ((h * p + up) % TWO_32) * TWO_32 + stay
  {
    var hp := h * p;
    assert (h * TWO_32 + l) * p == hp * TWO_32 + l * p by { assert (h * TWO_32) * p == hp * TWO_32; }
    TwoWords(hp + up, stay);
  }

  lemma LeftByBits(x: Long, p: int, q: int)
    requires 0 < p && 0 < q && p * q == TWO_32
    ensures LeftBy(x, p, q).Bits() == (x.Bits() * p) % TWO_64
  {
    hide ToInt32, Unsigned;
    var r := LeftBy(x, p, q);
    var h, l := Unsigned(x.high), Unsigned(x.low);
    var up, stay := l / q, (l % q) * p;
    SplitWord(l, p, q);
    HalvesLeft(x, p, q);
    assert Unsigned(r.low) == stay && Unsigned(r.high) == (h * p + up) % TWO_32;
    WordsTimes(h, l, p, up, stay);
  }

  lemma Complement(k: nat)
    requires k <= 32
    ensures Pow2(k) * Pow2(32 - k) == TWO_32
  {
    Pow2Sum(k, 32 - k);
    Pow2Of32();
  }

  lemma SmallShiftLeft(x: Long, k: nat)
    requires 0 < k < 32
    ensures ShiftLeft(x, k).Bits() == (x.Bits() * Pow2(k)) % TWO_64
  {
    hide LeftBy, Pow2, Long.Bits;
    var p, q := Pow2(k), Pow2(32 - k);
    Complement(k);
    LeftByBits(x, p, q);
    assert k % 64 == k;
    assert ShiftLeft(x, k) == LeftBy(x, p, q);
  }

  lemma LargeShiftLeft(x: Long, k: nat)
    requires 32 <= k < 64
    ensures ShiftLeft(x, k).Bits() == (x.Bits() * Pow2(k)) % TWO_64
  {
    hide ToInt32, Pow2;
    var p := Pow2(k - 32);
    Pow2Sum(32, k - 32);
    Pow2Of32();
    HalfBits(x.low * p);
    LowResidue(x, p);
    hide Unsigned;
    WordUp(Unsigned(x.high), Unsigned(x.low), p);
  }

  lemma WordUp(h: int, l: int, p: int)
    ensures ((h * TWO_32 + l) * (TWO_32 * p)) % TWO_64 == ((l * p) % TWO_32) * TWO_32
  {
    var hp, lp := h * p, l * p;
    assert (h * TWO_32 + l) * (TWO_32 * p) == (hp * TWO_32 + lp) * TWO_32 by {
      assert (h * TWO_32 + l) * p == hp * TWO_32 + lp;
    }
    WordsUp(hp, lp);
  }

  lemma WordsUp(hp: int, lp: int)
    ensures ((hp * TWO_32 + lp) * TWO_32) % TWO_64 == (lp % TWO_32) * TWO_32
  {
    TwoWords(hp * TWO_32 + lp, 0);
  }

  /** Shifting left multiplies by a power of two, modulo 2^64; the distance is taken modulo 64. */
  lemma ShiftLeftMultiplies(x: Long, numBits: int)
    ensures ShiftLeft(x, numBits).Value() == Wrap(x.Value() * Pow2(numBits % 64))
  {
    var k := numBits % 64;
    hide ShiftLeft, Pow2, Wrap;
    assert ShiftLeft(x, numBits) == ShiftLeft(x, k) by { SameDistance(x, numBits); }
    BitsAreValue(x);
    WrapOfProduct(x.Bits(), Pow2(k));
    if k == 0 {
      NoShift(x);
    } else {
      if k < 32 { SmallShiftLeft(x, k); } else { LargeShiftLeft(x, k); }
      FromBits(ShiftLeft(x, k), x.Bits() * Pow2(k));
    }
  }

  lemma SameDistance(x: Long, numBits: int)
    ensures ShiftLeft(x, numBits) == ShiftLeft(x, numBits % 64)
    ensures ShiftRight(x, numBits) == ShiftRight(x, numBits % 64)
    ensures ShiftRightUnsigned(x, numBits) == ShiftRightUnsigned(x, numBits % 64)
  {
    hide LeftBy, RightBy, Pow2, ToInt32, Unsigned;
  }

  lemma NoShift(x: Long)
    ensures ShiftLeft(x, 0) == x && Pow2(0) == 1 && x.Value() * Pow2(0) == x.Value() && Wrap(x.Value()) == x.Value()
  {
  }

  // ---- shifting right ----------------------------------------------------

  lemma WordsFactor(gh: int, gl: int, lh: int, ll: int, p: int, q: int)
    requires p * q == TWO_32
    ensures (p * gh + gl) * q == gh * TWO_32 + gl * q
    ensures (p * gh + gl) * TWO_32 + (p * lh + ll) == p * (gh * TWO_32 + (gl * q + lh)) + ll
  {
    assert (p * gh) * q == gh * (p * q);
    assert gl * (p * q) == p * (gl * q);
    assert p * gh * TWO_32 == p * (gh * TWO_32);
    assert p * (gh * TWO_32 + (gl * q + lh)) == p * (gh * TWO_32) + p * (gl * q) + p * lh;
  }

  /** A high word g and a low word l divided by p, where p times q is a whole word. */
  lemma DivideWords(g: int, l: int, p: int, q: int)
    requires 0 < p && 0 < q && p * q == TWO_32 && 0 <= l < TWO_32
    ensures 0 <= (g % p) * q + l / p < TWO_32
    ensures (g * TWO_32 + l) / p == (g / p) * TWO_32 + ((g % p) * q + l / p)
    ensures (l / p + g * q) % TWO_32 == (g % p) * q + l / p
  {
    var gh, gl, lh, ll := g / p, g % p, l / p, l % p;
    WordFits(gl, lh, l, p, q);
    WordsFactor(gh, gl, lh, ll, p, q);
    DivMod(lh + g * q, TWO_32, gh, gl * q + lh);
    DivMod(g * TWO_32 + l, p, gh * TWO_32 + (gl * q + lh), ll);
  }

  lemma WordFits(gl: int, lh: int, l: int, p: int, q: int)
    requires 0 < p && 0 < q && p * q == TWO_32 && 0 <= gl < p && lh == l / p && 0 <= l < TWO_32
    ensures 0 <= gl * q + lh < TWO_32
  {
    var ll := l % p;
    assert l == p * lh + ll;
    if lh >= q {
      MulLe(q, lh, p);
    }
    if lh < 0 {
      MulLe(lh, -1, p);
    }
    MulPositive(gl, q);
    MulLe(gl, p - 1, q);
    assert (p - 1) * q == p * q - q;
  }

  lemma SignDropsOut(high: Int32, p: int, q: int)
    requires 0 < p && 0 < q && p * q == TWO_32
    ensures Unsigned(high) % p == high % p
  {
    if high < 0 {
      var h, r := high / p, high % p;
      assert high == p * h + r;
      assert Unsigned(high) == p * (h + q) + r by { assert p * (h + q) == p * h + p * q; }
      DivMod(Unsigned(high), p, h + q, r);
    }
  }

  lemma QuotientRange(high: Int32, p: int)
    requires 0 < p
    ensures -0x8000_0000 <= high / p < 0x8000_0000
    ensures high >= 0 ==> high / p >= 0
    ensures high < 0 ==> high / p < 0
  {
    var h, r := high / p, high % p;
    assert high == p * h + r;
    if h >= 0x8000_0000 {
      MulLe(1, p, h);
    } else if h < -0x8000_0000 {
      MulLe(1, p, -h - 1);
    }
    if h < 0 {
      MulLe(h, -1, p);
    } else {
      MulPositive(p, h);
    }
  }

  lemma RightByLow(x: Long, p: int, q: int, high: int)
    requires 0 < p && 0 < q && p * q == TWO_32
    ensures Unsigned(RightBy(x, p, q, high).low) == (x.high % p) * q + Unsigned(x.low) / p
  {
    hide ToInt32, Unsigned;
    DivideWords(x.high, Unsigned(x.low), p, q);
    HalfBits(Unsigned(x.low) / p + x.high * q);
  }

  lemma SmallShiftRight(x: Long, p: int, q: int)
    requires 0 < p && 0 < q && p * q == TWO_32
    ensures RightBy(x, p, q, x.high / p).Value() == x.Value() / p
  {
    hide Unsigned;
    var r := RightBy(x, p, q, x.high / p);
    QuotientRange(x.high, p);
    assert r.high == x.high / p;
    hide RightBy, ToInt32;
    RightByLow(x, p, q, x.high / p);
    DivideWords(x.high, Unsigned(x.low), p, q);
  }

  lemma SmallShiftRightUnsigned(x: Long, p: int, q: int)
    requires 0 < p && 0 < q && p * q == TWO_32
    ensures RightBy(x, p, q, Unsigned(x.high) / p).Bits() == x.Bits() / p
  {
    var h := Unsigned(x.high);
    var r := RightBy(x, p, q, h / p);
    UnsignedQuotient(h, p);
    HalfBits(h / p);
    assert Unsigned(r.high) == h / p;
    hide RightBy, ToInt32, Unsigned;
    RightByLow(x, p, q, h / p);
    SignDropsOut(x.high, p, q);
    DivideWords(h, Unsigned(x.low), p, q);
  }

  lemma UnsignedQuotient(h: int, p: int)
    requires 0 <= h && 0 < p
    ensures 0 <= h / p <= h
  {
    var d, r := h / p, h % p;
    assert h == p * d + r;
    if d < 0 {
      MulLe(d, -1, p);
    } else {
      MulLe(1, p, d);
    }
  }

  /** Dividing by a whole word and more leaves the high word divided by the rest. */
  lemma DivideHigh(g: int, l: int, p: int)
    requires 0 < p && 0 <= l < TWO_32
    ensures (g * TWO_32 + l) / (TWO_32 * p) == g / p
  {
    var d, r := g / p, g % p;
    assert g == p * d + r;
    MulPositive(r, TWO_32);
    assert TWO_32 * p > 0;
    assert g * TWO_32 + l == (TWO_32 * p) * d + (r * TWO_32 + l) by { assert (p * d) * TWO_32 == (TWO_32 * p) * d; }
    assert r * TWO_32 + l < TWO_32 * p;
    DivMod(g * TWO_32 + l, TWO_32 * p, d, r * TWO_32 + l);
  }

  lemma WordAndMore(k: nat)
    requires 32 <= k < 64
    ensures Pow2(k) == TWO_32 * Pow2(k - 32)
  {
    Pow2Sum(32, k - 32);
    Pow2Of32();
  }

  lemma LargeShiftRight(x: Long, p: int)
    requires 0 < p
    ensures Long(ToInt32(x.high / p), if x.high >= 0 then 0 else -1).Value() == x.Value() / (TWO_32 * p)
  {
    QuotientRange(x.high, p);
    DivideHigh(x.high, Unsigned(x.low), p);
  }

  lemma LargeShiftRightUnsigned(x: Long, p: int)
    requires 0 < p
    ensures Long(ToInt32(Unsigned(x.high) / p), 0).Bits() == x.Bits() / (TWO_32 * p)
  {
    var h := Unsigned(x.high);
    UnsignedQuotient(h, p);
    HalfBits(h / p);
    DivideHigh(h, Unsigned(x.low), p);
  }

  /** Shifting right divides by a power of two and rounds down. */
  lemma ShiftRightDivides(x: Long, numBits: int)
    ensures ShiftRight(x, numBits).Value() == x.Value() / Pow2(numBits % 64)
  {
    hide RightBy, Pow2, Long.Value, ToInt32;
    var k := numBits % 64;
    if k == 0 {
      NoShift(x);
    } else if k < 32 {
      Complement(k);
      SmallShiftRight(x, Pow2(k), Pow2(32 - k));
    } else {
      WordAndMore(k);
      LargeShiftRight(x, Pow2(k - 32));
    }
  }

  /** The unsigned shift divides the unsigned number. */
  lemma ShiftRightUnsignedDivides(x: Long, numBits: int)
    ensures ShiftRightUnsigned(x, numBits).Bits() == x.Bits() / Pow2(numBits % 64)
  {
    hide RightBy, Pow2, Long.Bits, ToInt32;
    var k := numBits % 64;
    if k == 0 {
      NoShift(x);
    } else if k < 32 {
      Complement(k);
      SmallShiftRightUnsigned(x, Pow2(k), Pow2(32 - k));
    } else {
      WordAndMore(k);
      LargeShiftRightUnsigned(x, Pow2(k - 32));
      if k == 32 {
        NoShift(x);
        SameHalf(x.high);
      }
    }
  }

  lemma SameHalf(n: Int32)
    ensures ToInt32(Unsigned(n) / 1) == n
  {
  }

  // ---- number of bits ----------------------------------------------------

  /** `(val & (1 << bit)) != 0` */
  predicate HasBit(val: Int32, bit: nat) {
    Unsigned(val) / Pow2(bit) % 2 == 1
  }

  lemma BitStep(u: int, p: int)
    requires 0 < p && 0 <= u < 2 * p
    ensures u / p % 2 == 1 <==> p <= u
  {
    if p <= u {
      DivMod(u, p, 1, u - p);
    } else {
      DivMod(u, p, 0, u);
    }
  }

  /** The position of the highest bit of a 32-bit word, or 0. */
  method HighestBit(val: Int32) returns (bit: nat)
    ensures bit < 32
    ensures val != 0 ==> Pow2(bit) <= Unsigned(val) < Pow2(bit + 1)
    ensures val == 0 ==> bit == 0
  {
    hide Pow2, Unsigned;
    bit := 31;
    ZeroWord(val);
    while bit > 0
      invariant 0 <= bit <= 31 && 0 <= Unsigned(val) < 2 * Pow2(bit)
    {
      PowStep(bit);
      BitStep(Unsigned(val), Pow2(bit));
      if HasBit(val, bit) {
        break;
      }
      bit := bit - 1;
      PowStep(bit);
    }
    PowStep(bit);
  }

  lemma PowStep(k: nat)
    ensures Pow2(k + 1) == 2 * Pow2(k) && Pow2(0) == 1
  {}

  lemma ZeroWord(val: Int32)
    ensures Unsigned(val) < 2 * Pow2(31)
    ensures Unsigned(val) == 0 <==> val == 0
  {
    Pow2Of32();
  }

  lemma TwoWordBits(h: int, l: int, bit: nat)
    requires Pow2(bit) <= h < Pow2(bit + 1) && 0 <= l < TWO_32
    ensures Pow2(bit + 32) <= h * TWO_32 + l < Pow2(bit + 33)
  {
    Pow2Sum(bit, 32);
    Pow2Sum(bit + 1, 32);
    Pow2Of32();
  }

  /** |x| lies between two powers of two. */
  predicate NeedsBits(x: int, n: int) {
    if x == 0 then n == 1 else n > 0 && Pow2(n - 1) <= (if x < 0 then -x else x) < Pow2(n)
  }

  method GetNumBitsAbs(x: Long) returns (n: int)
    ensures NeedsBits(x.Value(), n)
    decreases x.IsNegative()
  {
    hide Pow2;
    if x.IsNegative() {
      if x == MIN_VALUE {
        Pow2Of32();
        return 64;
      } else {
        var m := Negate(x);
        NegatedValue(x, m);
        n := GetNumBitsAbs(m);
      }
    } else {
      var val := if x.high != 0 then x.high else x.low;
      var bit := HighestBit(val);
      if x.high != 0 {
        TwoWordBits(x.high, Unsigned(x.low), bit);
      }
      n := if x.high != 0 then bit + 33 else bit + 1;
    }
  }
}
