/**
 * Division by repeated approximation. The floating-point quotient is any integer from 1 up to twice the
 * true quotient, and the floating-point logarithm is off by at most one: far wider than what doubles do.
 */
module LongDivision {
  import opened Bytes
  import opened LongValue
  import opened LongArithmetic
  import opened LongShifts

  function Abs(n: int): nat {
    if n < 0 then -n else n
  }

  /** Division that rounds towards zero, as Java does. */
  function TruncDiv(x: int, y: int): int
    requires y != 0
  {
    var q := Abs(x) / Abs(y);
    if (x < 0) == (y < 0) then q else -q
  }

  datatype DivResult = DivisionByZero | Quotient(value: Long)

  // ---- the approximations ------------------------------------------------

  /** What `Math.max(1, Math.floor(rem.toNumber() / other.toNumber()))` may be. */
  predicate NearQuotient(approx: int, rem: int, y: int) {
    1 <= approx && approx * y <= 2 * rem
  }

  /** What `Math.ceil(Math.log(approx) / Math.LN2)` may be. */
  predicate NearLog2(log2: nat, approx: int) {
    approx <= 2 * Pow2(log2) && Pow2(log2) < 4 * approx
  }

  lemma {:induction false} FloorLog2(n: int) returns (f: nat)
    requires 1 <= n
    ensures Pow2(f) <= n < 2 * Pow2(f)
    decreases n
  {
    if n == 1 {
      f := 0;
    } else {
      f := FloorLog2(n / 2);
      f := f + 1;
    }
  }

  function Delta(log2: nat): (d: int)
    ensures d >= 1
  {
    if log2 <= 48 then 1 else Pow2(log2 - 48)
  }

  /** The step down is never more than the remainder allows. */
  lemma DeltaFits(log2: nat, approx: int, rem: int, y: int)
    requires 1 <= y <= rem && NearQuotient(approx, rem, y) && NearLog2(log2, approx)
    ensures Delta(log2) * y <= rem
  {
    hide Pow2;
    if log2 > 48 {
      Pow2Sum(log2 - 48, 48);
      assert Pow2(48) == 0x1_0000_0000_0000 by { Pow2Sum(32, 16); Pow2Of32(); Pow2OfSmall(); }
      var d := Pow2(log2 - 48);
      assert d * 0x1_0000_0000_0000 < 4 * approx;
      MulLe(d * 0x1_0000_0000_0000, 4 * approx, y);
      assert (d * 0x1_0000_0000_0000) * y == (d * y) * 0x1_0000_0000_0000;
      assert (4 * approx) * y == 4 * (approx * y);
    }
  }

  /** The product of an approximation reads as negative exactly when it leaves the positive range. */
  lemma ProductOverflow(a: int, y: int, rem: int)
    requires 0 <= a && 1 <= y && 0 <= rem < TWO_63 && a * y <= 2 * rem
    ensures 0 <= a * y < TWO_64
    ensures (Wrap(a * y) < 0 || Wrap(a * y) > rem) <==> a * y > rem
    ensures a * y <= rem ==> Wrap(a * y) == a * y
  {
    MulPositive(a, y);
  }

  lemma QuotientFromRemainder(x: int, y: int, q: int, rem: int)
    requires 0 <= x && 0 < y && x == q * y + rem && 0 <= rem < y
    ensures q == x / y
  {
    DivMod(x, y, q, rem);
  }

  /** The floating-point quotient: any near integer. */
  method ApproximateQuotient(rem: int, y: int) returns (approx: int)
    requires 1 <= y <= rem
    ensures NearQuotient(approx, rem, y)
  {
    assert NearQuotient(1, rem, y);
    approx :| 1 <= approx <= 2 * rem && NearQuotient(approx, rem, y);
  }

  /** The floating-point logarithm: any near integer. */
  method ApproximateLog2(approx: int) returns (log2: nat)
    requires 1 <= approx
    ensures NearLog2(log2, approx)
  {
    ghost var f := FloorLog2(approx);
    BelowPow2(f);
    assert NearLog2(f, approx);
    log2 :| 0 <= log2 <= approx && NearLog2(log2, approx);
  }

  lemma {:induction false} BelowPow2(k: nat)
    ensures k < Pow2(k)
    decreases k
  {
    if k > 0 {
      BelowPow2(k - 1);
    }
  }

  /** Lower the approximation until its product with b is at most the remainder. */
  method LowerApproximation(start: int, delta: int, b: Long, rem: Long) returns (approxRes: Long, approxRem: Long)
    requires 1 <= b.Value() <= rem.Value()
    requires NearQuotient(start, rem.Value(), b.Value())
    requires delta >= 1 && delta * b.Value() <= rem.Value()
    ensures 1 <= approxRes.Value() && approxRem.Value() == approxRes.Value() * b.Value() <= rem.Value()
  {
    hide Wrap;
    ghost var y, r := b.Value(), rem.Value();
    var approx := start;
    approxRes := FromNumber(approx);
    approxRem := Multiply(approxRes, b);
    Clamped(approx, approxRes.Value(), y, r);
    var more := Compare(approxRem, rem);
    while approxRem.IsNegative() || more > 0
      invariant 1 <= approx && approx * y <= 2 * r
      invariant approxRes.Value() == if approx < TWO_63 then approx else TWO_63 - 1
      invariant approxRem.Value() == Wrap(approxRes.Value() * y)
      invariant 0 <= approxRes.Value() * y <= 2 * r
      invariant more > 0 <==> approxRem.Value() > r
      decreases approx
    {
      ProductOverflow(approxRes.Value(), y, r);
      StillPositive(approxRes.Value(), approx, delta, y, r);
      approx := approx - delta;
      approxRes := FromNumber(approx);
      approxRem := Multiply(approxRes, b);
      Clamped(approx, approxRes.Value(), y, r);
      more := Compare(approxRem, rem);
    }
    ProductOverflow(approxRes.Value(), y, r);
  }

  /** Clamping to the largest long keeps the product in range. */
  lemma Clamped(approx: int, a: int, y: int, r: int)
    requires 1 <= approx && 1 <= y && approx * y <= 2 * r
    requires a == if approx < TWO_63 then approx else TWO_63 - 1
    ensures 0 <= a * y <= 2 * r
  {
    MulLe(a, approx, y);
    MulPositive(a, y);
  }

  /** While the product is too large, one more step down leaves at least one. */
  lemma StillPositive(a: int, approx: int, delta: int, y: int, r: int)
    requires a <= approx && 1 <= y && a * y > r && delta * y <= r && 1 <= delta && approx * y <= 2 * r
    ensures approx - delta >= 1 && (approx - delta) * y <= 2 * r
  {
    if a <= delta {
      MulLe(a, delta, y);
    }
    MulLe(approx - delta, approx, y);
  }

  method DivideLoop(a: Long, b: Long) returns (res: Long)
    requires a.Value() >= 0 && b.Value() > 0
    ensures res.Value() == a.Value() / b.Value()
  {
    hide Wrap;
    ghost var x, y := a.Value(), b.Value();
    res := ZERO;
    var rem := a;
    var more := Compare(rem, b);
    while more >= 0
      invariant 0 <= rem.Value() <= x && 0 <= res.Value()
      invariant x == res.Value() * y + rem.Value()
      invariant more >= 0 <==> rem.Value() >= y
      decreases rem.Value()
    {
      var approx := ApproximateQuotient(rem.Value(), b.Value());
      var log2 := ApproximateLog2(approx);
      var delta := Delta(log2);
      DeltaFits(log2, approx, rem.Value(), y);
      var approxRes, approxRem := LowerApproximation(approx, delta, b, rem);
      if approxRes.IsZero() {
        approxRes := ONE;
      }
      Progress(x, y, res.Value(), rem.Value(), approxRes.Value());
      WrapInRange(res.Value() + approxRes.Value());
      WrapInRange(rem.Value() - approxRem.Value());
      res := Add(res, approxRes);
      rem := Subtract(rem, approxRem);
      more := Compare(rem, b);
    }
    QuotientFromRemainder(x, y, res.Value(), rem.Value());
  }

  lemma Progress(x: int, y: int, res: int, rem: int, a: int)
    requires 0 < y && 0 <= res && 1 <= a && x == res * y + rem && a * y <= rem <= x < TWO_63
    ensures y <= a * y && x == (res + a) * y + (rem - a * y) && 0 <= res + a < TWO_63
  {
    MulLe(1, a, y);
    MulLe(1, y, res + a);
    assert (res + a) * y == res * y + a * y;
  }

  // ---- signs and MIN_VALUE -----------------------------------------------

  lemma TruncSigns(x: int, y: int)
    requires y != 0
    ensures TruncDiv(-x, -y) == TruncDiv(x, y)
    ensures x != 0 ==> -TruncDiv(-x, y) == TruncDiv(x, y) && -TruncDiv(x, -y) == TruncDiv(x, y)
    ensures x == 0 ==> TruncDiv(x, y) == 0
    ensures x >= 0 && y > 0 ==> TruncDiv(x, y) == x / y
  {
    if x == 0 {
      DivMod(0, Abs(y), 0, 0);
    }
  }

  lemma TruncBound(x: int, y: int)
    requires y != 0
    ensures Abs(TruncDiv(x, y)) <= Abs(x)
    ensures Abs(y) >= 2 ==> 2 * Abs(TruncDiv(x, y)) <= Abs(x)
    ensures Abs(y) > Abs(x) ==> TruncDiv(x, y) == 0
  {
    UnsignedQuotient(Abs(x), Abs(y));
    var q, r := Abs(x) / Abs(y), Abs(x) % Abs(y);
    assert Abs(x) == Abs(y) * q + r;
    if Abs(y) >= 2 {
      MulLe(2, Abs(y), q);
    }
    if Abs(y) > Abs(x) {
      DivMod(Abs(x), Abs(y), 0, Abs(x));
    }
  }

  lemma DoubledNatural(n: nat, d: int)
    requires 0 < d
    ensures (2 * n) / d == 2 * (n / d) + (2 * (n % d)) / d
  {
    var q, r := n / d, n % d;
    var e, f := 2 * r / d, 2 * r % d;
    assert n == d * q + r && 2 * r == d * e + f;
    assert d * (2 * q + e) == 2 * (d * q) + d * e;
    DivMod(2 * n, d, 2 * q + e, f);
  }

  lemma NegativeQuotients(n: nat, y: int)
    requires y != 0
    ensures TruncDiv(-(n as int), y) == (if y < 0 then 1 else -1) * (n / Abs(y))
  {
    if n == 0 {
      DivMod(0, Abs(y), 0, 0);
    }
  }

  lemma SignedRemainder(n: nat, y: int, q: int, sign: int)
    requires y != 0 && sign == (if y < 0 then 1 else -1) && q == n / Abs(y)
    ensures -2 * n - y * (2 * (sign * q)) == -2 * (n % Abs(y))
  {
    var d := Abs(y);
    assert n == d * q + n % d;
    assert y * (2 * (sign * q)) == -2 * (d * q) by {
      if y < 0 { assert y * (2 * q) == -2 * ((-y) * q); } else { assert y * (2 * -q) == -2 * (y * q); }
    }
  }

  /** The quotient of twice a negative number, from the quotient of the number itself. */
  lemma DoubledQuotient(h: int, y: int)
    requires h < 0 && y != 0
    ensures var rem := 2 * h - y * (2 * TruncDiv(h, y));
      rem == -2 * (Abs(h) % Abs(y)) && 2 * TruncDiv(h, y) + TruncDiv(rem, y) == TruncDiv(2 * h, y)
  {
    hide TruncDiv;
    var n := -h;
    NegativeQuotients(n, y);
    NegativeQuotients(2 * n, y);
    NegativeQuotients(2 * (n % Abs(y)), y);
    SignedRemainder(n, y, n / Abs(y), if y < 0 then 1 else -1);
    DoubledNatural(n, Abs(y));
  }

  /** The same for MIN_VALUE, with every intermediate result in range. */
  lemma HalvedQuotient(y: int)
    requires 2 <= Abs(y) < TWO_63
    ensures var q := TruncDiv(-0x4000_0000_0000_0000, y);
      var rem := -TWO_63 - y * (2 * q);
      && Abs(q) <= 0x2000_0000_0000_0000
      && (q == 0 ==> TruncDiv(-TWO_63, y) == if y < 0 then 1 else -1)
      && (q != 0 ==>
            -TWO_63 < rem <= 0 && 2 * q + TruncDiv(rem, y) == TruncDiv(-TWO_63, y) &&
            Abs(TruncDiv(rem, y)) < TWO_63 && Abs(TruncDiv(-TWO_63, y)) < TWO_63)
  {
    hide TruncDiv;
    var h := -0x4000_0000_0000_0000;
    var q := TruncDiv(h, y);
    DoubledQuotient(h, y);
    TruncBound(h, y);
    TruncBound(-TWO_63, y);
    TruncBound(-TWO_63 - y * (2 * q), y);
    if q == 0 {
      MinByLarge(y);
    }
  }

  lemma HalfOfMin()
    ensures ShiftRight(MIN_VALUE, 1).Value() == -0x4000_0000_0000_0000
  {
    hide ShiftRight;
    assert Pow2(1) == 2;
    ShiftRightDivides(MIN_VALUE, 1);
  }

  lemma Doubled(x: Long)
    ensures ShiftLeft(x, 1).Value() == Wrap(2 * x.Value())
  {
    assert Pow2(1) == 2;
    ShiftLeftMultiplies(x, 1);
  }

  function DivRank(a: Long, b: Long): nat {
    (if a == MIN_VALUE then 10 else 0) + (if a.IsNegative() then 1 else 0) + (if b.IsNegative() then 1 else 0)
  }

  method Div(a: Long, b: Long) returns (r: DivResult)
    ensures r.DivisionByZero? <==> b.Value() == 0
    ensures r.Quotient? ==> r.value.Value() == Wrap(TruncDiv(a.Value(), b.Value()))
    decreases DivRank(a, b)
  {
    hide Wrap, TruncDiv, ShiftRight, ShiftLeft, Pow2;
    ValueIsInjective(a, ZERO);
    ValueIsInjective(b, ZERO);
    ValueIsInjective(a, MIN_VALUE);
    ValueIsInjective(b, MIN_VALUE);
    WrapInRange(0);
    if b.IsZero() {
      return DivisionByZero;
    }
    TruncSigns(a.Value(), b.Value());
    if a.IsZero() {
      return Quotient(ZERO);
    }
    if a == MIN_VALUE {
      r := DivMin(b);
      return;
    } else if b == MIN_VALUE {
      TruncBound(a.Value(), b.Value());
      return Quotient(ZERO);
    }
    if a.IsNegative() {
      var p := Negate(a);
      NegatedValue(a, p);
      if b.IsNegative() {
        var q := Negate(b);
        NegatedValue(b, q);
        r := Div(p, q);
      } else {
        r := Div(p, b);
        var n := Negate(r.value);
        WrapOfNegation(TruncDiv(p.Value(), b.Value()));
        r := Quotient(n);
      }
    } else if b.IsNegative() {
      var q := Negate(b);
      NegatedValue(b, q);
      r := Div(a, q);
      var n := Negate(r.value);
      WrapOfNegation(TruncDiv(a.Value(), q.Value()));
      r := Quotient(n);
    } else {
      var q := DivideLoop(a, b);
      WrapInRange(q.Value());
      r := Quotient(q);
    }
  }

  /** MIN_VALUE is halved first, so that it can be negated. */
  method DivMin(b: Long) returns (r: DivResult)
    requires b.Value() != 0
    ensures r.Quotient? && r.value.Value() == Wrap(TruncDiv(MIN_VALUE.Value(), b.Value()))
    decreases DivRank(MIN_VALUE, b), 0
  {
    hide Wrap, TruncDiv, ShiftRight, ShiftLeft, Pow2;
    if b == ONE || b == NEG_ONE {
      MinByOne();
      return Quotient(MIN_VALUE);
    } else if b == MIN_VALUE {
      MinByMin();
      return Quotient(ONE);
    }
    NotOne(b);
    HalfOfMin();
    HalvedQuotient(b.Value());
    var half := ShiftRight(MIN_VALUE, 1);
    var first := Div(half, b);
    ghost var q: int := TruncDiv(half.Value(), b.Value());
    WrapInRange(q);
    Doubled(first.value);
    WrapInRange(2 * q);
    var approx := ShiftLeft(first.value, 1);
    ValueIsInjective(approx, ZERO);
    if approx == ZERO {
      WrapInRange(TruncDiv(MIN_VALUE.Value(), b.Value()));
      return Quotient(if b.IsNegative() then ONE else NEG_ONE);
    }
    var product := Multiply(b, approx);
    var rem := Subtract(MIN_VALUE, product);
    ExactRemainder(b.Value(), 2 * q);
    var second := Div(rem, b);
    WrapInRange(TruncDiv(rem.Value(), b.Value()));
    var sum := Add(approx, second.value);
    r := Quotient(sum);
  }

  lemma ExactRemainder(y: int, approx: int)
    requires -TWO_63 < -TWO_63 - y * approx <= 0
    ensures Wrap(-TWO_63 - Wrap(y * approx)) == -TWO_63 - y * approx
  {
    WrapInRange(y * approx);
    WrapInRange(-TWO_63 - y * approx);
    WrapOfNegation(y * approx);
    WrapOfSum(-TWO_63, -(Wrap(y * approx) as int));
    WrapOfSum(-TWO_63, -(y * approx));
  }

  lemma MinByOne()
    ensures TruncDiv(-TWO_63, 1) == -TWO_63 && TruncDiv(-TWO_63, -1) == TWO_63
    ensures Wrap(-TWO_63) == -TWO_63 && Wrap(TWO_63) == -TWO_63
  {}

  lemma MinByMin()
    ensures TruncDiv(-TWO_63, -TWO_63) == 1 && Wrap(1) == 1
  {}

  lemma NotOne(b: Long)
    requires b.Value() != 0 && b != ONE && b != NEG_ONE && b != MIN_VALUE
    ensures 2 <= Abs(b.Value()) < TWO_63
  {
    ValueIsInjective(b, ONE);
    ValueIsInjective(b, NEG_ONE);
    ValueIsInjective(b, MIN_VALUE);
  }

  /** With the half quotient zero the divisor is above 2^62 in size, and the quotient is one in size. */
  lemma MinByLarge(y: int)
    requires 2 <= Abs(y) < TWO_63 && TruncDiv(-0x4000_0000_0000_0000, y) == 0
    ensures TruncDiv(-TWO_63, y) == if y < 0 then 1 else -1
  {
    var d := Abs(y);
    var n := 0x4000_0000_0000_0000;
    var q, r := n / d, n % d;
    assert n == d * q + r;
    assert q == 0;
    DivMod(TWO_63, d, 1, TWO_63 - d);
  }

  /** The remainder of the division that rounds towards zero: it has the sign of the dividend. */
  function TruncMod(x: int, y: int): int
    requires y != 0
  {
    x - TruncDiv(x, y) * y
  }

  lemma TruncModRange(x: int, y: int)
    requires y != 0
    ensures Abs(TruncMod(x, y)) < Abs(y)
    ensures x >= 0 ==> TruncMod(x, y) >= 0
    ensures x <= 0 ==> TruncMod(x, y) <= 0
  {
    var q, r := Abs(x) / Abs(y), Abs(x) % Abs(y);
    assert Abs(x) == Abs(y) * q + r;
    if (x < 0) == (y < 0) {
      assert q * y == (if y < 0 then -1 else 1) * (Abs(y) * q);
    } else {
      assert (-q) * y == (if y < 0 then 1 else -1) * (Abs(y) * q);
    }
  }

  /** `modulo`: the dividend minus the quotient times the divisor, all modulo 2^64. */
  method Modulo(a: Long, b: Long) returns (r: DivResult)
    ensures r.DivisionByZero? <==> b.Value() == 0
    ensures r.Quotient? ==> r.value.Value() == TruncMod(a.Value(), b.Value())
  {
    var q := Div(a, b);
    if q.DivisionByZero? {
      return DivisionByZero;
    }
    hide Wrap, TruncDiv;
    var p := Multiply(q.value, b);
    var d := Subtract(a, p);
    var x, y := a.Value(), b.Value();
    ghost var t := TruncDiv(x, y);
    WrapOfProduct(t, y);
    WrapOfNegation(t * y);
    WrapOfSum(x, -(Wrap(t * y) as int));
    WrapOfSum(x, -(t * y));
    TruncModRange(x, y);
    WrapInRange(TruncMod(x, y));
    r := Quotient(d);
  }

  /** x is its quotient times y plus its remainder, in 64-bit arithmetic, for every pair with y not zero. */
  lemma DivisionIdentity(x: Long, y: Long)
    requires y.Value() != 0
    ensures var q, m := Wrap(TruncDiv(x.Value(), y.Value())), TruncMod(x.Value(), y.Value());
      Wrap(Wrap(q * y.Value()) + m) == x.Value()
  {
    var t, m := TruncDiv(x.Value(), y.Value()), TruncMod(x.Value(), y.Value());
    WrapOfProduct(t, y.Value());
    WrapOfSum(t * y.Value(), m);
    WrapInRange(x.Value());
  }
}
