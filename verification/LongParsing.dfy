/** Reading 64-bit integers from text, and when reading undoes writing. */
module LongParsing {
  import opened Bytes
  import opened LongValue
  import opened LongArithmetic
  import opened LongDivision
  import opened LongText

  /** `fromString` throws for the first three. */
  datatype ParseResult = EmptyString | RadixError | InteriorMinus | Parsed(value: Long)

  function LeadingDigits(s: string, r: Radix): (n: nat)
    ensures n <= |s|
  {
    if s == [] || !IsDigit(s[0], r) then 0 else 1 + LeadingDigits(s[1..], r)
  }

  /** The white space and line terminators of section 12.2 and 12.3 of ECMA-262. */
  predicate IsSpace(c: char) {
    var u := c as int;
    9 <= u <= 13 || u == 32 || u == 160 || u == 0x1680 || 0x2000 <= u <= 0x200A || u == 0x2028 || u == 0x2029 ||
    u == 0x202F || u == 0x205F || u == 0x3000 || u == 0xFEFF
  }

  function Trimmed(s: string): (t: string)
    ensures |t| <= |s|
  {
    if s != [] && IsSpace(s[0]) then Trimmed(s[1..]) else s
  }

  /** What `parseInt` takes its digits from: white space, a plus sign and, in radix 16, "0x" are passed over. */
  function NumberPart(s: string, r: Radix): (t: string)
    ensures |t| <= |s|
  {
    var t := Trimmed(s);
    var u := if t != [] && t[0] == '+' then t[1..] else t;
    if r == 16 && |u| >= 2 && u[0] == '0' && (u[1] == 'x' || u[1] == 'X') then u[2..] else u
  }

  /** `parseInt(s, r)` on text without a minus sign; it stops at the first character that is no digit, NaN becomes zero. */
  function ParseInt(s: string, r: Radix): nat {
    var t := NumberPart(s, r);
    DigitsValue(t[..LeadingDigits(t, r)], r)
  }

  /** Eight digits at a time from the left. */
  function EightByEight(s: string, r: Radix): int
    decreases |s|
  {
    if s == [] then 0
    else
      var n := (|s| - 1) / 8 * 8;
      EightByEight(s[..n], r) * Power(r, |s| - n) + ParseInt(s[n..], r)
  }

  function Negated(p: ParseResult): ParseResult {
    if p.Parsed? then Parsed(OfValue(Wrap(-(p.value.Value() as int)))) else p
  }

  /** Each leading minus sign negates; one further inside is an error. */
  function Parse(s: string, r: Radix): ParseResult
    decreases |s|
  {
    if s == [] then EmptyString
    else if s[0] == '-' then Negated(Parse(s[1..], r))
    else if '-' in s then InteriorMinus
    else Parsed(OfValue(Wrap(EightByEight(s, r))))
  }

  // ---- the method --------------------------------------------------------

  lemma {:induction false} PowerMonotone(r: int, q: int, k: nat)
    requires 2 <= r <= q
    ensures Power(r, k) <= Power(q, k)
    decreases k
  {
    if k > 0 {
      PowerMonotone(r, q, k - 1);
      PowerPositive(r, k - 1);
      MulLe(r, q, Power(r, k - 1));
      MulLe(Power(r, k - 1), Power(q, k - 1), q);
    }
  }

  lemma PowersFit(r: Radix, k: nat)
    requires k <= 8
    ensures 1 <= Power(r, k) <= 0x100_0000_0000_0000
  {
    PowerPositive(r, k);
    PowerMonotone(r, 128, k);
    assert Power(128, 2) == 0x4000;
    assert Power(128, 4) == 0x1000_0000;
    assert Power(128, 6) == 0x400_0000_0000;
    assert Power(128, 8) == 0x100_0000_0000_0000;
    assert Power(128, 1) == 128 && Power(128, 3) == 0x20_0000 && Power(128, 5) == 0x8_0000_0000 && Power(128, 7) == 0x2_0000_0000_0000;
  }

  lemma {:induction false} DigitsBelow(s: string, r: Radix)
    requires AllDigits(s, r)
    ensures DigitsValue(s, r) < Power(r, |s|)
    decreases |s|
  {
    hide CharValue, Power;
    if s == [] {
      assert Power(r, 0) == 1 by { PowerOne(r, 0); }
    } else {
      var t := s[..|s| - 1];
      assert IsDigit(s[|s| - 1], r);
      assert AllDigits(t, r);
      DigitsBelow(t, r);
      PowerOne(r, |t|);
      OneMoreDigit(DigitsValue(t, r), Power(r, |t|), CharValue(s[|s| - 1]), r);
    }
  }

  lemma PowerOne(r: int, k: nat)
    ensures Power(r, 0) == 1 && Power(r, k + 1) == r * Power(r, k)
  {}

  lemma OneMoreDigit(v: int, p: int, d: int, r: int)
    requires v < p && 0 <= d < r
    ensures v * r + d < r * p
  {
    MulLe(v, p - 1, r);
    assert (p - 1) * r == r * p - r;
  }

  lemma {:induction false} LeadingAreDigits(s: string, r: Radix)
    ensures AllDigits(s[..LeadingDigits(s, r)], r)
    ensures AllDigits(s, r) ==> LeadingDigits(s, r) == |s|
    decreases |s|
  {
    if s != [] && IsDigit(s[0], r) {
      LeadingAreDigits(s[1..], r);
      var n := LeadingDigits(s, r);
      assert s[..n] == [s[0]] + s[1..][..n - 1];
    }
  }

  lemma ParseIntFits(s: string, r: Radix)
    requires |s| <= 8
    ensures ParseInt(s, r) < 0x100_0000_0000_0000
  {
    var t := NumberPart(s, r);
    var n := LeadingDigits(t, r);
    LeadingAreDigits(t, r);
    DigitsBelow(t[..n], r);
    PowersFit(r, n);
  }

  /** `result.multiply(power).add(Long.fromNumber(value))` */
  method NextChunk(result: Long, chunk: string, r: Radix) returns (next: Long)
    requires |chunk| <= 8
    ensures next.Value() == Wrap(result.Value() * Power(r, |chunk|) + ParseInt(chunk, r))
  {
    hide Wrap, Power;
    PowersFit(r, |chunk|);
    ParseIntFits(chunk, r);
    var power := FromNumber(Power(r, |chunk|));
    var value := FromNumber(ParseInt(chunk, r));
    var product := Multiply(result, power);
    next := Add(product, value);
    WrapOfSum(result.Value() * power.Value(), value.Value());
  }

  lemma WrapScaled(e: int, p: int, d: int)
    ensures Wrap(Wrap(e) * p + d) == Wrap(e * p + d)
  {
    hide Wrap;
    WrapOfProduct(e, p);
    WrapOfSum(Wrap(e) * p, d);
    WrapOfSum(e * p, d);
  }

  lemma LastChunk(t: string, r: Radix)
    requires t != []
    ensures var n := (|t| - 1) / 8 * 8;
      0 <= n <= |t| && EightByEight(t, r) == EightByEight(t[..n], r) * Power(r, |t| - n) + ParseInt(t[n..], r)
  {
    hide Power, ParseInt;
  }

  lemma ChunkStep(s: string, i: nat, size: nat, r: Radix)
    requires i % 8 == 0 && i < |s| && size == (if |s| - i < 8 then |s| - i else 8)
    ensures Wrap(Wrap(EightByEight(s[..i], r)) * Power(r, size) + ParseInt(s[i..i + size], r)) ==
      Wrap(EightByEight(s[..i + size], r))
  {
    hide Wrap, Power, ParseInt, EightByEight;
    var t := s[..i + size];
    assert (|t| - 1) / 8 * 8 == i;
    assert t[..i] == s[..i] && t[i..] == s[i..i + size];
    LastChunk(t, r);
    WrapScaled(EightByEight(s[..i], r), Power(r, size), ParseInt(s[i..i + size], r));
  }

  method UnsignedFromString(s: string, r: Radix) returns (result: Long)
    ensures result == OfValue(Wrap(EightByEight(s, r)))
  {
    hide Wrap, EightByEight, Power, ParseInt;
    result := ZERO;
    var i := 0;
    NoDigits(r);
    while i < |s|
      invariant i <= |s| && (i % 8 == 0 || i == |s|)
      invariant result.Value() == Wrap(EightByEight(s[..i], r))
    {
      var size := if |s| - i < 8 then |s| - i else 8;
      ChunkStep(s, i, size, r);
      result := NextChunk(result, s[i..i + size], r);
      i := i + size;
    }
    assert s[..i] == s;
    ValueIsInjective(result, OfValue(Wrap(EightByEight(s, r))));
  }

  lemma NoDigits(r: Radix)
    ensures Wrap(EightByEight("", r)) == 0
  {}

  method FromString(s: string, radix: int) returns (p: ParseResult)
    ensures var r := if radix == 0 then 10 else radix;
      p == if s == [] then EmptyString else if r < 2 || 36 < r then RadixError else Parse(s, r)
    decreases |s|
  {
    hide Wrap, EightByEight;
    if s == [] {
      return EmptyString;
    }
    var r := if radix == 0 then 10 else radix;
    if r < 2 || 36 < r {
      return RadixError;
    }
    if s[0] == '-' {
      p := FromString(s[1..], r);
      if p.Parsed? {
        var n := Negate(p.value);
        ValueIsInjective(n, OfValue(Wrap(-(p.value.Value() as int))));
        p := Parsed(n);
      }
    } else if '-' in s {
      p := InteriorMinus;
    } else {
      var n := UnsignedFromString(s, r);
      p := Parsed(n);
    }
  }

  // ---- reading back what was written -------------------------------------

  lemma {:induction false} DigitsConcat(a: string, b: string, r: Radix)
    ensures DigitsValue(a + b, r) == DigitsValue(a, r) * Power(r, |b|) + DigitsValue(b, r)
    decreases |b|
  {
    hide CharValue, Power;
    if b == [] {
      assert a + b == a;
      PowerOne(r, 0);
    } else {
      var c := b[..|b| - 1];
      assert (a + b)[..|a + b| - 1] == a + c;
      DigitsConcat(a, c, r);
      PowerOne(r, |c|);
      ShiftedSum(DigitsValue(a, r), Power(r, |c|), DigitsValue(c, r), CharValue(b[|b| - 1]), r);
    }
  }

  lemma ShiftedSum(v: int, p: int, w: int, d: int, r: int)
    ensures (v * p + w) * r + d == v * (r * p) + (w * r + d)
  {
    assert (v * p) * r == v * (r * p);
  }

  /** On digits alone `parseInt` passes over nothing: neither a space nor a sign nor the x of "0x" is a digit there. */
  lemma ParseIntOfDigits(s: string, r: Radix)
    requires AllDigits(s, r)
    ensures ParseInt(s, r) == DigitsValue(s, r)
  {
    hide DigitsValue;
    if s != [] {
      assert IsDigit(s[0], r) && Trimmed(s) == s;
      assert |s| >= 2 ==> IsDigit(s[1], r);
    }
    assert NumberPart(s, r) == s;
    LeadingAreDigits(s, r);
    assert s[..|s|] == s;
  }

  lemma {:induction false} EightIsDigits(s: string, r: Radix)
    requires AllDigits(s, r)
    ensures EightByEight(s, r) == DigitsValue(s, r)
    decreases |s|
  {
    hide Power, ParseInt;
    if s != [] {
      var n := (|s| - 1) / 8 * 8;
      EightIsDigits(s[..n], r);
      ParseIntOfDigits(s[n..], r);
      DigitsConcat(s[..n], s[n..], r);
      assert s[..n] + s[n..] == s;
    }
  }

  lemma ParseDigits(s: string, r: Radix)
    requires AllDigits(s, r) && s != []
    ensures Parse(s, r) == Parsed(OfValue(Wrap(DigitsValue(s, r))))
    ensures Parse("-" + s, r) == Parsed(OfValue(Wrap(-(DigitsValue(s, r) as int))))
  {
    hide Wrap, EightByEight;
    NoMinus(s, r);
    assert s[0] in s;
    EightIsDigits(s, r);
    assert ("-" + s)[1..] == s;
    WrapOfNegation(DigitsValue(s, r));
  }

  lemma NumeralReadsBack(v: Int64, r: Radix)
    ensures Parse(Numeral(v, r), r) == Parsed(OfValue(v))
  {
    hide Digits, Parse, Wrap;
    var n := Abs(v);
    DigitsRoundTrip(n, r);
    ParseDigits(Digits(n, r), r);
    WrapInRange(v);
  }

  /** Text that can be read only with one minus sign in front, and then as a number not above n in size. */
  predicate SignedBelow(u: string, n: nat, r: Radix) {
    |u| > 1 && u[0] == '-' && AllDigits(u[1..], r) && 0 < DigitsValue(u[1..], r) <= n
  }

  predicate InnerMinus(u: string) {
    u != [] && '-' in u[1..]
  }

  lemma MisfitChunk(n: nat, r: Radix)
    requires 0x8000_0000 <= n < SixPower(r)
    ensures SignedBelow(Numeral(ToInt32(n), r), n, r)
  {
    hide Digits, SixPower;
    SixPowerRange(r);
    var m := TWO_32 - n;
    DigitsRoundTrip(m, r);
    assert Numeral(ToInt32(n), r) == "-" + Digits(m, r);
    assert ("-" + Digits(m, r))[1..] == Digits(m, r);
  }

  lemma {:induction false} FixedDigits(v: nat, k: nat, r: Radix)
    requires v < Power(r, k)
    ensures |Fixed(v, k, r)| == k && AllDigits(Fixed(v, k, r), r) && DigitsValue(Fixed(v, k, r), r) == v
    decreases k
  {
    hide DigitChar, DigitsValue, AllDigits, CharValue;
    if k == 0 {
      EmptyDigits(r);
    } else {
      Smaller(v, r);
      QuotientBelow(v, r, Power(r, k - 1));
      FixedDigits(v / r, k - 1, r);
      OneDigit(Fixed(v / r, k - 1, r), v % r, r);
      Recombine(v, r);
    }
  }

  lemma EmptyDigits(r: Radix)
    ensures AllDigits("", r) && DigitsValue("", r) == 0
  {}

  /** A number with a chunk that does not fit: a minus sign inside, or only in front of a smaller number. */
  lemma {:induction false} MisfitText(n: nat, r: Radix)
    requires !ChunksFit(n, r)
    ensures InnerMinus(Chunked(n, r)) || SignedBelow(Chunked(n, r), n, r)
    decreases n
  {
    hide Digits, DigitChar, Numeral, Padded, Fixed, ToInt32, SixPower, Power, DigitsValue;
    var p := SixPower(r);
    if n < p {
      MisfitChunk(n, r);
    } else {
      Smaller(n, p);
      var q, v := n / p, n % p;
      Recombine(n, p);
      ChunkText(v, r);
      var tail := Padded(Numeral(ToInt32(v), r));
      var u := Chunked(q, r) + tail;
      NotEmpty(q, r);
      assert u[1..] == Chunked(q, r)[1..] + tail;
      if v < 0x8000_0000 {
        MisfitText(q, r);
        if !InnerMinus(Chunked(q, r)) {
          var front := Chunked(q, r)[1..];
          SixIsPower(r);
          FixedDigits(v, 6, r);
          DigitsConcat(front, tail, r);
          SumBelow(DigitsValue(front, r), q, p, v);
        }
      }
    }
  }

  lemma SumBelow(w: int, q: int, p: int, v: int)
    requires 0 < w <= q && 0 < p && 0 <= v
    ensures 0 < w * p + v <= q * p + v
  {
    MulLe(w, q, p);
    MulLe(1, w, p);
  }

  lemma {:induction false} NotEmpty(n: nat, r: Radix)
    ensures Chunked(n, r) != []
    decreases n
  {
    hide ToInt32, SixPower;
    var p := SixPower(r);
    if n >= p {
      Smaller(n, p);
      NotEmpty(n / p, r);
    } else {
      DigitsRoundTrip(Abs(ToInt32(n)), r);
    }
  }

  lemma {:induction false} SecondNotMinus(n: nat, r: Radix)
    ensures Chunked(n, r) != [] && (Chunked(n, r)[0] == '-' ==> |Chunked(n, r)| > 1 && Chunked(n, r)[1] != '-')
    decreases n
  {
    hide ToInt32, SixPower, Digits, Padded, DigitChar;
    var p := SixPower(r);
    if n < p {
      var m := Abs(ToInt32(n));
      DigitsRoundTrip(m, r);
      NoMinus(Digits(m, r), r);
      assert Digits(m, r)[0] in Digits(m, r);
    } else {
      Smaller(n, p);
      SecondNotMinus(n / p, r);
    }
  }

  /** A minus sign behind the first character makes the text unreadable, with or without one more in front. */
  lemma UnreadableInside(u: string, r: Radix)
    requires InnerMinus(u) && (u[0] == '-' ==> |u| > 1 && u[1] != '-')
    ensures !Parse(u, r).Parsed? && !Parse("-" + u, r).Parsed?
  {
    hide EightByEight;
    assert ("-" + u)[1..] == u;
    assert u == [u[0]] + u[1..];
  }

  lemma ReadsWithOtherSign(u: string, n: nat, r: Radix)
    requires SignedBelow(u, n, r) && n < TWO_63
    ensures Parse(u, r).Parsed? && Parse(u, r).value.Value() < 0
    ensures Parse("-" + u, r).Parsed? && Parse("-" + u, r).value.Value() > 0
  {
    hide EightByEight, DigitsValue, AllDigits, Long.Value, Wrap, OfValue;
    var t := u[1..];
    assert u == "-" + t;
    ParseDigits(t, r);
    var d: int := DigitsValue(t, r);
    WrapInRange(-d);
    WrapInRange(d);
    assert ("-" + u)[1..] == u;
  }

  lemma MinFits(r: Radix)
    ensures ChunksFit(TWO_63 / r, r)
  {
    if r < 36 {
      SmallRadixFits(TWO_63 / r, r);
    } else {
      assert Power(36, 3) == 46656;
      assert SixPower(36) == 2176782336;
      assert ChunksFit(117698850, 36);
    }
  }

  /**
   * Reading what was written gives the number back exactly when every six-digit chunk fits into a signed
   * 32-bit integer. Below radix 36 that is always so, for MIN_VALUE too.
   */
  lemma TextRoundTripIff(v: Int64, r: Radix)
    ensures Parse(TextOf(v, r), r) == Parsed(OfValue(v)) <==> TextFits(v, r)
    ensures r < 36 || v == -TWO_63 ==> TextFits(v, r)
  {
    hide Parse, Chunked, ChunksFit, Numeral, Digits;
    TextIsNumeralIff(v, r);
    NumeralReadsBack(v, r);
    MinFits(r);
    if !TextFits(v, r) {
      var n := Abs(v);
      var u := Chunked(n, r);
      MisfitText(n, r);
      SecondNotMinus(n, r);
      if InnerMinus(u) {
        UnreadableInside(u, r);
      } else {
        ReadsWithOtherSign(u, n, r);
      }
      ZeroText(r);
    }
  }

  /** The two conversions one after the other. */
  method WriteAndRead(x: Long, radix: int) returns (y: ParseResult)
    requires 2 <= radix <= 36
    ensures y == Parsed(x) <==> TextFits(x.Value(), radix)
    ensures radix < 36 ==> y == Parsed(x)
  {
    hide Parse, TextOf;
    var t := ToString(x, radix);
    y := FromString(t.text, radix);
    NeverEmpty(x.Value(), radix);
    TextRoundTripIff(x.Value(), radix);
    ValueIsInjective(x, OfValue(x.Value()));
  }

  lemma NeverEmpty(v: Int64, r: Radix)
    ensures TextOf(v, r) != []
  {
    NotEmpty(Abs(v), r);
  }
}
