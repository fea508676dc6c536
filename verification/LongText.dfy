/** 64-bit integers as text: six digits at a time on the way out, eight on the way in. */
module LongText {
  import opened Bytes
  import opened LongValue
  import opened LongArithmetic
  import opened LongShifts
  import opened LongDivision

  type Radix = r: int | 2 <= r <= 36 witness 10

  function DigitChar(d: int): char
    requires 0 <= d < 36
  {
    if d < 10 then ('0' as int + d) as char else ('a' as int + d - 10) as char
  }

  /** The value of a digit; upper case counts, anything else is no digit of any radix. */
  function CharValue(c: char): (d: int)
    ensures 0 <= d <= 36
  {
    if '0' <= c <= '9' then c as int - '0' as int
    else if 'a' <= c <= 'z' then c as int - 'a' as int + 10
    else if 'A' <= c <= 'Z' then c as int - 'A' as int + 10
    else 36
  }

  predicate IsDigit(c: char, r: Radix) {
    CharValue(c) < r
  }

  lemma Smaller(n: nat, p: int)
    requires 2 <= p
    ensures 0 <= n / p && (n > 0 ==> n / p < n)
  {
    UnsignedQuotient(n, p);
    var q, m := n / p, n % p;
    assert n == p * q + m;
    if n > 0 && q >= n {
      MulLe(2, p, q);
    }
  }

  /** The digits of a number in the usual notation. */
  function Digits(n: nat, r: Radix): string
    decreases n
  {
    if n < r then [DigitChar(n)] else Smaller(n, r); Digits(n / r, r) + [DigitChar(n % r)]
  }

  /** `Number.prototype.toString(radix)` of an integer. */
  function Numeral(n: int, r: Radix): string {
    if n < 0 then "-" + Digits(-n, r) else Digits(n, r)
  }

  function DigitsValue(s: string, r: Radix): nat
    decreases |s|
  {
    if s == [] then 0 else DigitsValue(s[..|s| - 1], r) * r + CharValue(s[|s| - 1])
  }

  predicate AllDigits(s: string, r: Radix) {
    forall i :: 0 <= i < |s| ==> IsDigit(s[i], r)
  }

  lemma DigitRoundTrip(d: int)
    requires 0 <= d < 36
    ensures CharValue(DigitChar(d)) == d && DigitChar(d) != '-'
  {
  }

  lemma {:induction false} DigitsRoundTrip(n: nat, r: Radix)
    ensures Digits(n, r) != [] && AllDigits(Digits(n, r), r) && DigitsValue(Digits(n, r), r) == n
    decreases n
  {
    hide CharValue, DigitChar, DigitsValue, AllDigits;
    if n < r {
      SingleDigit(n, r);
    } else {
      var q, d := n / r, n % r;
      Smaller(n, r);
      DigitsRoundTrip(q, r);
      OneDigit(Digits(q, r), d, r);
      Recombine(n, r);
    }
  }

  lemma Recombine(n: int, r: int)
    requires r > 0
    ensures (n / r) * r + n % r == n && 0 <= n % r < r
  {
  }

  lemma SingleDigit(d: int, r: Radix)
    requires 0 <= d < r
    ensures AllDigits([DigitChar(d)], r) && DigitsValue([DigitChar(d)], r) == d
  {
    hide CharValue, DigitChar;
    DigitRoundTrip(d);
    assert [DigitChar(d)][..0] == [];
  }

  lemma OneDigit(s: string, d: int, r: Radix)
    requires 0 <= d < r && AllDigits(s, r)
    ensures AllDigits(s + [DigitChar(d)], r)
    ensures DigitsValue(s + [DigitChar(d)], r) == DigitsValue(s, r) * r + d
  {
    hide CharValue, DigitChar;
    DigitRoundTrip(d);
    var t := s + [DigitChar(d)];
    assert t[..|t| - 1] == s;
  }

  lemma NoMinus(s: string, r: Radix)
    requires AllDigits(s, r)
    ensures '-' !in s
  {
  }

  // ---- writing -----------------------------------------------------------

  function Power(r: int, k: nat): int {
    if k == 0 then 1 else r * Power(r, k - 1)
  }

  lemma {:induction false} PowerPositive(r: int, k: nat)
    requires r >= 2
    ensures Power(r, k) >= 1 && (k > 0 ==> Power(r, k) >= r)
    decreases k
  {
    if k > 0 {
      PowerPositive(r, k - 1);
      MulLe(1, Power(r, k - 1), r);
    }
  }

  /** `while (digits.length < 6) digits = '0' + digits` */
  function Padded(s: string): string
    decreases 6 - |s|
  {
    if |s| < 6 then Padded("0" + s) else s
  }

  function SixPower(r: Radix): (p: int)
    ensures p >= 2
  {
    PowerPositive(r, 6);
    Power(r, 6)
  }

  /** What the loop writes: six digits for each division, the 32 low bits of each chunk read as signed. */
  function Chunked(n: nat, r: Radix): string
    decreases n
  {
    var p := SixPower(r);
    if n < p then Numeral(ToInt32(n), r)
    else Smaller(n, p); Chunked(n / p, r) + Padded(Numeral(ToInt32(n % p), r))
  }

  /** The text of a value: MIN_VALUE gives up its last digit first, so that it can be negated. */
  function TextOf(v: Int64, r: Radix): string {
    if v == 0 then "0"
    else if v == -TWO_63 then "-" + Chunked(TWO_63 / r, r) + Numeral(TWO_63 % r, r)
    else if v < 0 then "-" + Chunked(-(v as int), r)
    else Chunked(v, r)
  }

  datatype TextResult = RadixOutOfRange | Text(text: string)

  lemma LowHalf(x: Long)
    ensures x.low == ToInt32(x.Value())
  {
  }

  /** The value of the chunk: `rem.subtract(remDiv.multiply(radixToPower)).toInt()`. */
  method Chunk(rem: Long, remDiv: Long, p: Long) returns (d: Int32)
    requires rem.Value() >= 0 && p.Value() > 0 && remDiv.Value() == rem.Value() / p.Value()
    ensures d == ToInt32(rem.Value() % p.Value())
  {
    var product := Multiply(remDiv, p);
    var diff := Subtract(rem, product);
    d := diff.low;
    ghost var n, q, y := rem.Value(), remDiv.Value(), p.Value();
    LowHalf(diff);
    ChunkValue(n, y);
  }

  lemma ChunkValue(n: int, y: int)
    requires 0 <= n < TWO_63 && 0 < y < TWO_63
    ensures Wrap(n - Wrap(n / y * y)) == n % y
  {
    var q, m := n / y, n % y;
    assert n == y * q + m && 0 <= m < y;
    UnsignedQuotient(n, y);
    MulPositive(q, y);
    WrapInRange(q * y);
    WrapInRange(m);
  }

  method PositiveToString(x: Long, r: Radix) returns (s: string)
    requires x.Value() > 0
    ensures s == Chunked(x.Value(), r)
  {
    hide Chunked, Wrap, ToInt32;
    SixPowerRange(r);
    var p := FromNumber(SixPower(r));
    var rem := x;
    s := "";
    while true
      invariant rem.Value() > 0
      invariant Chunked(x.Value(), r) == Chunked(rem.Value(), r) + s
      decreases rem.Value()
    {
      var q := DivideLoop(rem, p);
      var d := Chunk(rem, q, p);
      var digits := Numeral(d, r);
      OneChunk(rem.Value(), r);
      if q.IsZero() {
        s := digits + s;
        return;
      }
      ZeroIff(q);
      while |digits| < 6
        invariant Padded(digits) == Padded(Numeral(d, r))
        decreases 6 - |digits|
      {
        digits := "0" + digits;
      }
      assert Chunked(q.Value(), r) + digits + s == Chunked(q.Value(), r) + (digits + s);
      s := digits + s;
      rem := q;
    }
  }

  lemma ZeroIff(x: Long)
    ensures x.IsZero() <==> x.Value() == 0
  {
  }

  lemma SixPowerRange(r: Radix)
    ensures 64 <= SixPower(r) < 0x1_0000_0000
    ensures r < 36 ==> SixPower(r) < 0x8000_0000
  {
    var two, three := r * r, r * r * r;
    MulLe(r, if r < 36 then 35 else 36, r);
    MulLe(2, r, r);
    MulLe(two, if r < 36 then 1225 else 1296, r);
    MulLe(4, two, r);
    MulLe(three, if r < 36 then 42875 else 46656, three);
    MulLe(8, three, three);
    assert Power(r, 1) == r;
    assert Power(r, 2) == r * r;
    assert Power(r, 3) == three;
    assert Power(r, 4) == r * three;
    assert Power(r, 5) == r * (r * three);
    assert SixPower(r) == r * (r * (r * three));
    assert r * (r * (r * three)) == three * three;
  }

  lemma OneChunk(n: nat, r: Radix)
    requires n > 0
    ensures var p := SixPower(r);
      && 0 <= n / p < n
      && (n / p == 0 ==> Chunked(n, r) == Numeral(ToInt32(n % p), r))
      && (n / p != 0 ==> Chunked(n, r) == Chunked(n / p, r) + Padded(Numeral(ToInt32(n % p), r)))
  {
    hide ToInt32, Numeral, Padded;
    var p := SixPower(r);
    Smaller(n, p);
    if n < p {
      DivMod(n, p, 0, n);
    }
  }

  lemma MinDigit(r: Radix)
    ensures TruncDiv(-TWO_63, r) == -(TWO_63 / r) && 0 < TWO_63 / r < TWO_63 && 0 <= TWO_63 % r < r
    ensures Wrap(-(TWO_63 / r)) == -(TWO_63 / r)
    ensures Wrap(Wrap(-(TWO_63 / r) * r) + TWO_63) == TWO_63 % r
  {
    var q, d := TWO_63 / r, TWO_63 % r;
    Recombine(TWO_63, r);
    Smaller(TWO_63, r);
    WrapInRange(-q);
    assert -q * r == -(q * r);
    WrapInRange(-q * r);
    WrapInRange(d);
  }

  method ToString(x: Long, radix: int) returns (t: TextResult)
    ensures var r := if radix == 0 then 10 else radix;
      t == if r < 2 || 36 < r then RadixOutOfRange else Text(TextOf(x.Value(), r))
    decreases if x == MIN_VALUE then 2 else if x.IsNegative() then 1 else 0
  {
    hide Chunked, Wrap, TruncDiv, Numeral;
    var r := if radix == 0 then 10 else radix;
    if r < 2 || 36 < r {
      return RadixOutOfRange;
    }
    ValueIsInjective(x, ZERO);
    ValueIsInjective(x, MIN_VALUE);
    if x.IsZero() {
      return Text("0");
    }
    if x.IsNegative() {
      if x == MIN_VALUE {
        MinDigit(r);
        var radixLong := FromNumber(r);
        var d := Div(x, radixLong);
        var product := Multiply(d.value, radixLong);
        var rem := Subtract(product, x);
        LowHalf(rem);
        SmallInt(TWO_63 % r);
        ValueIsInjective(d.value, MIN_VALUE);
        var front := ToString(d.value, r);
        return Text(front.text + Numeral(rem.low, r));
      } else {
        var p := Negate(x);
        NegatedValue(x, p);
        var digits := ToString(p, r);
        return Text("-" + digits.text);
      }
    }
    var s := PositiveToString(x, r);
    return Text(s);
  }

  lemma SmallInt(n: int)
    requires 0 <= n < 0x8000_0000
    ensures ToInt32(n) == n
  {
  }

  // ---- when the text is the number ---------------------------------------

  /** Every chunk of six digits fits into a signed 32-bit integer. */
  predicate ChunksFit(n: nat, r: Radix)
    decreases n
  {
    var p := SixPower(r);
    if n < p then n < 0x8000_0000
    else Smaller(n, p); n % p < 0x8000_0000 && ChunksFit(n / p, r)
  }

  predicate TextFits(v: Int64, r: Radix) {
    if v == -TWO_63 then ChunksFit(TWO_63 / r, r) else ChunksFit(Abs(v), r)
  }

  lemma {:induction false} SmallRadixFits(n: nat, r: Radix)
    requires r < 36
    ensures ChunksFit(n, r)
    decreases n
  {
    var p := SixPower(r);
    SixPowerRange(r);
    if n >= p {
      Smaller(n, p);
      SmallRadixFits(n / p, r);
    }
  }

  function Zeros(k: nat): string {
    if k == 0 then "" else "0" + Zeros(k - 1)
  }

  lemma {:induction false} ZerosEnd(k: nat)
    ensures Zeros(k) + "0" == "0" + Zeros(k)
    decreases k
  {
    if k > 0 {
      ZerosEnd(k - 1);
      assert "0" + Zeros(k - 1) + "0" == "0" + (Zeros(k - 1) + "0");
    }
  }

  lemma {:induction false} PaddedIsZeros(s: string)
    ensures Padded(s) == if |s| < 6 then Zeros(6 - |s|) + s else s
    decreases 6 - |s|
  {
    if |s| < 6 {
      PaddedIsZeros("0" + s);
      ZerosEnd(5 - |s|);
      assert Zeros(5 - |s|) + ("0" + s) == Zeros(5 - |s|) + "0" + s;
    }
  }

  /** Exactly k digits. */
  function Fixed(v: nat, k: nat, r: Radix): string
    decreases k
  {
    if k == 0 then "" else Smaller(v, r); Fixed(v / r, k - 1, r) + [DigitChar(v % r)]
  }

  lemma {:induction false} FixedIsPadded(v: nat, k: nat, r: Radix)
    requires k > 0 && v < Power(r, k)
    ensures |Digits(v, r)| <= k && Fixed(v, k, r) == Zeros(k - |Digits(v, r)|) + Digits(v, r)
    decreases k
  {
    hide DigitChar;
    var q, d := v / r, v % r;
    Smaller(v, r);
    Recombine(v, r);
    if v < r {
      DivMod(v, r, 0, v);
    }
    if k == 1 {
      assert Power(r, 1) == r * Power(r, 0);
      assert Fixed(v, 1, r) == Fixed(q, 0, r) + [DigitChar(d)];
    } else {
      QuotientBelow(v, r, Power(r, k - 1));
      FixedIsPadded(q, k - 1, r);
      if v < r {
        assert DigitChar(0) == '0' by { DigitRoundTrip(0); ZeroDigit(); }
        ZerosEnd(k - 2);
        assert Fixed(v, k, r) == Zeros(k - 2) + "0" + [DigitChar(v)];
      } else {
        assert Fixed(v, k, r) == Zeros(k - 1 - |Digits(q, r)|) + (Digits(q, r) + [DigitChar(d)]);
      }
    }
  }

  lemma ZeroDigit()
    ensures DigitChar(0) == '0'
  {}

  lemma QuotientBelow(v: nat, r: int, p: int)
    requires r > 0 && v < r * p
    ensures v / r < p
  {
    var q, m := v / r, v % r;
    assert v == r * q + m;
    if q >= p {
      MulLe(p, q, r);
    }
  }

  lemma SplitStep(a: int, p: int, v: int, r: int)
    requires a > 0 && p > 0 && r >= 2 && 0 <= v
    ensures var n := a * (r * p) + v;
      n >= r && n / r == a * p + v / r && n % r == v % r
  {
    Recombine(v, r);
    assert a * (r * p) == r * (a * p);
    MulLe(1, a, p);
    MulLe(1, a * p, r);
    UnsignedQuotient(v, r);
    DivMod(a * (r * p) + v, r, a * p + v / r, v % r);
  }

  lemma DigitsStep(n: nat, r: Radix)
    requires n >= r
    ensures n / r >= 0 && Digits(n, r) == Digits(n / r, r) + [DigitChar(n % r)]
  {
    Smaller(n, r);
  }

  /** The digits of a number made of a front part and k more digits. */
  lemma {:induction false} DigitsSplit(a: nat, v: nat, k: nat, r: Radix)
    requires a > 0 && v < Power(r, k)
    ensures 0 <= a * Power(r, k) + v
    ensures Digits(a * Power(r, k) + v, r) == Digits(a, r) + Fixed(v, k, r)
    decreases k
  {
    hide DigitChar, Digits;
    PowerPositive(r, k);
    MulLe(1, a, Power(r, k));
    if k == 0 {
      assert Digits(a, r) + "" == Digits(a, r);
    } else {
      PowerPositive(r, k - 1);
      var p := Power(r, k - 1);
      Smaller(v, r);
      QuotientBelow(v, r, p);
      DigitsSplit(a, v / r, k - 1, r);
      SplitStep(a, p, v, r);
      DigitsStep(a * (r * p) + v, r);
      assert Digits(a, r) + Fixed(v / r, k - 1, r) + [DigitChar(v % r)] == Digits(a, r) + Fixed(v, k, r);
    }
  }

  // ---- the exact condition -----------------------------------------------

  lemma SixIsPower(r: Radix)
    ensures SixPower(r) == Power(r, 6)
  {}

  lemma PaddingKeepsMinus(t: string)
    requires '-' in t
    ensures '-' in Padded(t)
  {
    PaddedIsZeros(t);
  }

  lemma NegativeNumeral(v: int, r: Radix)
    requires 0x8000_0000 <= v < TWO_32
    ensures '-' in Numeral(ToInt32(v), r)
  {
    hide Digits;
    assert Numeral(ToInt32(v), r)[0] == '-';
  }

  lemma SixDigits(v: nat, r: Radix)
    requires v < Power(r, 6)
    ensures Padded(Digits(v, r)) == Fixed(v, 6, r)
  {
    hide Digits, Power, Fixed, Padded;
    FixedIsPadded(v, 6, r);
    PaddedIsZeros(Digits(v, r));
    NoZeros(Digits(v, r));
  }

  lemma NoZeros(s: string)
    ensures Zeros(0) + s == s
  {}

  /** Six digits of a chunk: as they should be when it fits, with a minus sign among them when it does not. */
  lemma ChunkText(v: nat, r: Radix)
    requires v < SixPower(r)
    ensures v < 0x8000_0000 ==> Numeral(ToInt32(v), r) == Digits(v, r) && Padded(Digits(v, r)) == Fixed(v, 6, r)
    ensures v >= 0x8000_0000 ==> '-' in Numeral(ToInt32(v), r) && '-' in Padded(Numeral(ToInt32(v), r))
  {
    hide Digits, Power, SixPower, Fixed, Padded;
    SixPowerRange(r);
    SixIsPower(r);
    if v < 0x8000_0000 {
      SixDigits(v, r);
    } else {
      NegativeNumeral(v, r);
      PaddingKeepsMinus(Numeral(ToInt32(v), r));
    }
  }

  /** The chunks spell the number exactly when each of them fits; otherwise a minus sign is left inside. */
  lemma {:induction false} ChunkedIff(n: nat, r: Radix)
    ensures ChunksFit(n, r) ==> Chunked(n, r) == Digits(n, r)
    ensures !ChunksFit(n, r) ==> '-' in Chunked(n, r)
    decreases n
  {
    hide Digits, DigitChar, Numeral, Padded, Fixed, ToInt32, SixPower;
    var p := SixPower(r);
    if n < p {
      ChunkText(n, r);
    } else {
      Smaller(n, p);
      var q, v := n / p, n % p;
      Recombine(n, p);
      ChunkedIff(q, r);
      ChunkText(v, r);
      if v < 0x8000_0000 && ChunksFit(q, r) {
        FrontPart(n, p);
        SixIsPower(r);
        DigitsSplit(q, v, 6, r);
      }
    }
  }

  lemma FrontPart(n: int, p: int)
    requires 0 < p <= n
    ensures n / p > 0
  {
    var q, m := n / p, n % p;
    assert n == p * q + m;
    if q <= 0 {
      MulLe(q, 0, p);
    }
  }

  lemma DigitsHaveNoMinus(n: nat, r: Radix)
    ensures '-' !in Digits(n, r)
  {
    DigitsRoundTrip(n, r);
    NoMinus(Digits(n, r), r);
  }

  /** The text is the number in the usual notation exactly when every six-digit chunk fits; so it is below radix 36. */
  lemma TextIsNumeralIff(v: Int64, r: Radix)
    ensures TextOf(v, r) == Numeral(v, r) <==> TextFits(v, r)
    ensures r < 36 ==> TextFits(v, r)
  {
    hide Chunked, ChunksFit, Digits, DigitChar;
    var n := Abs(v);
    DigitsHaveNoMinus(n, r);
    ChunkedIff(n, r);
    if r < 36 {
      SmallRadixFits(n, r);
      SmallRadixFits(TWO_63 / r, r);
    }
    if v == 0 {
      ZeroText(r);
    } else if v == -TWO_63 {
      MinText(r);
    } else if v < 0 {
      var a, b := Chunked(n, r), Digits(n, r);
      assert ("-" + a)[1..] == a && ("-" + b)[1..] == b;
    }
  }

  lemma ZeroText(r: Radix)
    ensures Digits(0, r) == "0" && ChunksFit(0, r)
  {
  }

  lemma MinText(r: Radix)
    ensures TextOf(-TWO_63, r) == Numeral(-TWO_63, r) <==> ChunksFit(TWO_63 / r, r)
  {
    hide Chunked, ChunksFit, Digits, DigitChar;
    var q, d := TWO_63 / r, TWO_63 % r;
    MinDigit(r);
    DigitsStep(TWO_63, r);
    LastDigit(d, r);
    ChunkedIff(q, r);
    DigitsHaveNoMinus(q, r);
    var a, b, c := Chunked(q, r), Digits(q, r), [DigitChar(d)];
    assert TextOf(-TWO_63, r) == "-" + a + c;
    assert Numeral(-TWO_63, r) == "-" + (b + c);
    assert ("-" + a + c)[1..|"-" + a + c| - 1] == a;
    assert ("-" + (b + c))[1..|"-" + (b + c)| - 1] == b;
    assert a == b ==> "-" + a + c == "-" + (b + c);
  }

  lemma LastDigit(d: int, r: Radix)
    requires 0 <= d < r
    ensures Numeral(d, r) == [DigitChar(d)]
  {
  }
}
