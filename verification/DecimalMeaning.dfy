/** Digit-level parsing is exact: what parseFixed4 returns, said in rational arithmetic on
    the literal's own value. */
module DecimalMeaning {
  import opened Int64
  import opened Rounding
  import opened Digits
  import opened Literals
  import opened FixedParse

  /** +-d * 10^shift as the fraction Numerator / Denominator. */
  function Numerator(neg: bool, d: nat, shift: int): int {
    var mag: int := if shift >= 0 then d * Pow10(shift) else d;
    if neg then 0 - mag else mag
  }

  function Denominator(shift: int): (p: nat)
    ensures p > 0
  {
    if shift >= 0 then 1 else Pow10(0 - shift)
  }

  predicate Yields(r: Parsed, v: int) {
    r.Units? && r.value == v
  }

  lemma RangedMeaning(neg: bool, mag: nat, v: int)
    ensures Yields(Ranged(neg, mag), v) <==> Fits(v) && v == if neg then 0 - mag else mag
  {
  }

  /** Exact mode: v is returned exactly when it is an int64 equal to the fraction. */
  lemma QuantizeExact(neg: bool, d: nat, shift: int, v: int)
    ensures Yields(Quantize(neg, d, shift, Exact), v) <==>
            Fits(v) && v * Denominator(shift) == Numerator(neg, d, shift)
    ensures Quantize(neg, d, shift, Exact) == Inexact <==> Numerator(neg, d, shift) % Denominator(shift) != 0
  {
    hide Pow10, Ranged, Yields;
    if shift >= 0 {
      RangedMeaning(neg, d * Pow10(shift), v);
      RangedNeverInexact(neg, d * Pow10(shift));
      OverOne(v, Numerator(neg, d, shift));
    } else {
      var p := Denominator(shift);
      RangedMeaning(neg, d / p, v);
      RangedNeverInexact(neg, d / p);
      DivisibleIff(neg, d, p, v);
      InexactYields(v);
    }
  }

  lemma HalfEvenNearest(d: nat, p: nat)
    requires p > 0
    ensures NearestEven(d, p, HalfEvenQuotient(d, p))
  {
  }

  lemma InexactYields(v: int)
    ensures !Yields(Inexact, v)
  {
  }

  lemma RangedNeverInexact(neg: bool, mag: nat)
    ensures Ranged(neg, mag).Units? || Ranged(neg, mag) == OutOfRange
  {
  }

  lemma OverOne(v: int, n: int)
    ensures v * 1 == v && n % 1 == 0
    ensures NearestEven(n, 1, v) <==> v == n
  {
  }

  lemma DivisibleIff(neg: bool, d: nat, p: nat, v: int)
    requires p > 0
    ensures var n := if neg then 0 - d else d;
            && (n % p == 0 <==> d % p == 0)
            && (v * p == n <==> d % p == 0 && v == if neg then 0 - d / p else d / p)
  {
    DivModParts(d, p);
    var n, q := if neg then 0 - d else d, d / p;
    MulSigns(q, p);
    if v * p == n {
      MulSigns(v, p);
      QuotientUnique(if neg then 0 - v else v, d, p);
    }
    ModOfNegation(d, p);
  }

  lemma QuotientUnique(w: int, d: nat, p: nat)
    requires p > 0 && w * p == d
    ensures d % p == 0 && d / p == w
  {
    if w < 0 {
      MulGap(w, 0, p);
    }
    QuotientOf(w, 0, p);
  }

  lemma ModOfNegation(d: nat, p: nat)
    requires p > 0
    ensures (0 - d) % p == 0 <==> d % p == 0
  {
    var a, r := (0 - d) / p, (0 - d) % p;
    assert 0 - d == a * p + r;
    if r == 0 {
      MulSigns(a, p);
      QuotientUnique(0 - a, d, p);
    }
    if d % p == 0 {
      DivModParts(d, p);
      var q: int := d / p;
      MulSigns(q, p);
      if a < 0 - q {
        MulGap(a, 0 - q, p);
      } else if a > 0 - q {
        MulGap(0 - q, a, p);
      }
    }
  }

  /** Half-even mode: v is returned exactly when it is an int64 and the nearest integer to
      the fraction, ties to even; every other outcome is out of range. */
  lemma QuantizeHalfEven(neg: bool, d: nat, shift: int, v: int)
    ensures Yields(Quantize(neg, d, shift, HalfEven), v) <==>
            Fits(v) && NearestEven(Numerator(neg, d, shift), Denominator(shift), v)
    ensures Quantize(neg, d, shift, HalfEven).Units? || Quantize(neg, d, shift, HalfEven) == OutOfRange
  {
    hide Pow10, Ranged, Yields, NearestEven, HalfEvenQuotient, RoundUp;
    RangedNeverInexact(neg, if shift >= 0 then d * Pow10(shift) else HalfEvenQuotient(d, Denominator(shift)));
    if shift >= 0 {
      RangedMeaning(neg, d * Pow10(shift), v);
      OverOne(v, Numerator(neg, d, shift));
    } else {
      var p := Denominator(shift);
      HalfEvenNearest(d, p);
      var q: int := HalfEvenQuotient(d, p);
      RangedMeaning(neg, q, v);
      var signed: int := if neg then 0 - q else q;
      SignedNearest(neg, d, p, q);
      if NearestEven(Numerator(neg, d, shift), p, v) {
        NearestEvenUnique(Numerator(neg, d, shift), p, v, signed);
      }
    }
  }

  lemma SignedNearest(neg: bool, d: nat, p: nat, q: nat)
    requires p > 0 && NearestEven(d, p, q)
    ensures NearestEven(if neg then 0 - d else d, p, if neg then 0 - q else q)
  {
  }

  // ---- the exponent clamp ----

  /** The clamp only ever acts on exponents of at least eleven digits, all of them huge. */
  lemma {:induction false} ClampedOrHuge(digits: string)
    requires AllDigits(digits)
    ensures ClampedNat(digits) == NatOf(digits) ||
            (ClampedNat(digits) >= 1_000_000_000 && NatOf(digits) >= 1_000_000_000 && |digits| >= 11)
  {
    if digits != "" {
      var init := digits[..|digits| - 1];
      ClampedOrHuge(init);
      if NatOf(init) >= 1_000_000_000 { ManyDigits(init); }
    }
  }

  lemma ManyDigits(d: string)
    requires AllDigits(d) && NatOf(d) >= 1_000_000_000
    ensures |d| >= 10
  {
    if |d| < 10 {
      NatOfBound(d);
      Pow10Grows(|d|, 9);
      NineZeros();
    }
  }

  /** Far beyond the range every shift overflows. */
  lemma HugeShift(neg: bool, d: nat, shift: int, mode: Mode)
    requires d > 0 && shift >= 19
    ensures Quantize(neg, d, shift, mode) == OutOfRange
  {
    ScaledGrows(d, 19, shift);
    assert Pow10(19) == 10_000_000_000_000_000_000 by {
      assert Pow10(5) == 100_000;
      Pow10Add(5, 5);
      Pow10Add(10, 5);
      Pow10Add(15, 4);
      assert Pow10(4) == 10_000;
    }
  }

  /** Far below one unit every shift gives zero, or inexact. */
  lemma TinyShift(neg: bool, digits: string, shift: int, mode: Mode)
    requires AllDigits(digits) && NatOf(digits) > 0 && 0 - shift > |digits|
    ensures Quantize(neg, NatOf(digits), shift, mode) == if mode == Exact then Inexact else Units(0)
  {
    var k := 0 - shift;
    NatOfBound(digits);
    Pow10Grows(|digits|, k - 1);
    QuotientOf(0, NatOf(digits), Pow10(k));
  }

  /** For every literal shorter than 10^9 - 1 characters the clamp changes nothing. */
  lemma ClampIsLossless(l: Literal, mode: Mode)
    requires Grammatical(l) && |Render(l)| < 999_999_999
    ensures Quantize(Negative(l), Coefficient(l), ClampedShift(l), mode) ==
            Quantize(Negative(l), Coefficient(l), TrueShift(l), mode)
  {
    hide Quantize, NatOf, ClampedNat;
    if l.exp.Exponent? {
      ClampedOrHuge(l.exp.digits);
      if Coefficient(l) == 0 {
        QuantizeZero(Negative(l), ClampedShift(l), mode);
        QuantizeZero(Negative(l), TrueShift(l), mode);
      } else if ClampedShift(l) != TrueShift(l) {
        LiteralLength(l);
        if l.exp.sign == "-" {
          TinyShift(Negative(l), l.ip + l.fp, ClampedShift(l), mode);
          TinyShift(Negative(l), l.ip + l.fp, TrueShift(l), mode);
        } else {
          HugeShift(Negative(l), Coefficient(l), ClampedShift(l), mode);
          HugeShift(Negative(l), Coefficient(l), TrueShift(l), mode);
        }
      }
    }
  }

  lemma LiteralLength(l: Literal)
    requires l.exp.Exponent? && (!l.dot ==> l.fp == "")
    ensures |Render(l)| >= |l.ip| + |l.fp| + 1 + |l.exp.digits|
    ensures l.fp != "" ==> |Render(l)| >= |l.ip| + |l.fp| + 2 + |l.exp.digits|
  {
  }

  /** Exact mode succeeds if and only if value * 10^4 is an integer in the int64 range, and
      then returns it. */
  lemma ParseExactly(l: Literal, v: int)
    requires Grammatical(l) && |Render(l)| < 999_999_999
    ensures Yields(Parse(Render(l), Exact), v) <==>
            && Fits(v)
            && v * Denominator(TrueShift(l)) == Numerator(Negative(l), Coefficient(l), TrueShift(l))
  {
    ScanInvertsRender(l);
    ClampIsLossless(l, Exact);
    QuantizeExact(Negative(l), Coefficient(l), TrueShift(l), v);
  }

  /** Half-even mode returns the half-even rounding of value * 10^4, or is out of range. */
  lemma ParseRounded(l: Literal, v: int)
    requires Grammatical(l) && |Render(l)| < 999_999_999
    ensures Yields(Parse(Render(l), HalfEven), v) <==>
            && Fits(v)
            && NearestEven(Numerator(Negative(l), Coefficient(l), TrueShift(l)), Denominator(TrueShift(l)), v)
    ensures Parse(Render(l), HalfEven).Units? || Parse(Render(l), HalfEven) == OutOfRange
  {
    ScanInvertsRender(l);
    ClampIsLossless(l, HalfEven);
    QuantizeHalfEven(Negative(l), Coefficient(l), TrueShift(l), v);
  }

  /** A string is invalid exactly when no grammatical literal spells it. */
  lemma InvalidIff(s: string, mode: Mode)
    ensures Parse(s, mode) == InvalidNumber <==> !(exists l :: Grammatical(l) && Render(l) == s)
  {
    hide Scan, Grammatical, Render;
    ParseInvalid(s, mode);
    if Scan(s).Some? {
      ScanIsSound(s);
      var l := Scan(s).value;
      assert Grammatical(l) && Render(l) == s;
    } else if exists l :: Grammatical(l) && Render(l) == s {
      var l :| Grammatical(l) && Render(l) == s;
      ScanInvertsRender(l);
    }
  }

  lemma ParseInvalid(s: string, mode: Mode)
    ensures Parse(s, mode) == InvalidNumber <==> Scan(s).None?
  {
    hide Scan;
  }

  // ---- the same, spelled out ----

  /** `s` is an optional sign, digits with an optional point and at least one digit, and an optional
      exponent: e or E, an optional sign, at least one digit. */
  predicate Spells(l: Literal, s: string) {
    && l.sign in {"", "+", "-"} && AllDigits(l.ip) && AllDigits(l.fp) && |l.ip| + |l.fp| > 0 && (l.fp != "" ==> l.dot)
    && (l.exp.Exponent? ==>
          && l.exp.marker in {'e', 'E'} && l.exp.sign in {"", "+", "-"}
          && AllDigits(l.exp.digits) && |l.exp.digits| > 0)
    && s == l.sign + l.ip + (if l.dot then "." else "") + l.fp +
            (if l.exp.Exponent? then [l.exp.marker] + l.exp.sign + l.exp.digits else "")
  }

  lemma SpellsRendered(l: Literal, s: string)
    ensures Spells(l, s) <==> Grammatical(l) && s == Render(l)
  {
    hide AllDigits;
    assert Render(l) == l.sign + l.ip + (if l.dot then "." else "") + l.fp +
                        (if l.exp.Exponent? then [l.exp.marker] + l.exp.sign + l.exp.digits else "");
  }

  /** The accepted strings are exactly those. */
  lemma AcceptsIff(s: string, mode: Mode)
    ensures Parse(s, mode) != InvalidNumber <==> exists l :: Spells(l, s)
  {
    hide Parse, Spells, Grammatical, Render;
    InvalidIff(s, mode);
    forall l ensures Spells(l, s) <==> Grammatical(l) && Render(l) == s {
      SpellsRendered(l, s);
    }
  }

  /** What they mean: the digits, times ten to the exponent less the places behind the point plus
      four, with the sign. Exact mode yields v exactly if that is v; half-even mode exactly if v is
      its half-even rounding. */
  lemma TextMeans(l: Literal, s: string, v: int)
    requires Spells(l, s) && |s| < 999_999_999
    ensures var e := if l.exp.NoExponent? then 0
                     else if l.exp.sign == "-" then 0 - NatOf(l.exp.digits) else NatOf(l.exp.digits);
            var k := e + 4 - |l.fp|;
            AllDigits(l.ip + l.fp) &&
            var n := NatOf(l.ip + l.fp) * (if k >= 0 then Pow10(k) else 1);
            var p := if k >= 0 then 1 else Pow10(0 - k);
            var signed := if l.sign == "-" then 0 - n else n;
            && (Parse(s, Exact).Units? && Parse(s, Exact).value == v <==> Fits(v) && v * p == signed)
            && (Parse(s, HalfEven).Units? && Parse(s, HalfEven).value == v <==> Fits(v) && NearestEven(signed, p, v))
            && Parse(s, HalfEven) != Inexact
            && (Parse(s, Exact) == Inexact <==> n % p != 0)
  {
    hide Parse, NatOf, Pow10, NearestEven, Render;
    SpellsRendered(l, s);
    ParseExactly(l, v);
    ParseRounded(l, v);
    ParseInexact(l);
    assert NatOf(l.ip + l.fp) * 1 == NatOf(l.ip + l.fp);
  }

  lemma ParseInexact(l: Literal)
    requires Grammatical(l) && |Render(l)| < 999_999_999
    ensures Parse(Render(l), Exact) == Inexact <==>
            Numerator(false, Coefficient(l), TrueShift(l)) % Denominator(TrueShift(l)) != 0
  {
    hide NatOf, Pow10, Scan, Quantize;
    ScanInvertsRender(l);
    ClampIsLossless(l, Exact);
    QuantizeExact(Negative(l), Coefficient(l), TrueShift(l), 0);
    ModOfNegation(Numerator(false, Coefficient(l), TrueShift(l)), Denominator(TrueShift(l)));
  }

  // ---- at 10^9 - 1 characters the clamp is wrong ----

  /** A point, 10^9 - 15 zeros, a one, and the exponent 10000000000. */
  function LongLiteral(): Literal {
    Literal("", "", true, Zeros(999_999_985) + "1", Exponent('e', "", "10000000000"))
  }

  lemma TenToTheTenth()
    ensures var s := "1" + Zeros(10);
            AllDigits(s) && NatOf(s) == 10_000_000_000 && ClampedNat(s) == 1_000_000_000
  {
    hide ClampedNat, NatOf, AllDigits, Zeros;
    var t := "1" + Zeros(9);
    OneAndZeros(9);
    ClampedOrHuge(t);
    NineZeros();
    StepDigit(t + ['0'], t, '0');
    ZerosGrow(9);
  }

  lemma ZerosGrow(n: nat)
    ensures "1" + Zeros(n + 1) == "1" + Zeros(n) + ['0']
  {
  }

  lemma NineZeros()
    ensures Pow10(9) == 1_000_000_000
  {
  }

  lemma OneAndZeros(n: nat)
    ensures AllDigits("1" + Zeros(n)) && NatOf("1" + Zeros(n)) == Pow10(n)
  {
    StepDigit("1", "", '1');
    NatOfAppend("1", Zeros(n));
    NatOfZeros(n);
  }

  lemma StepDigit(s: string, init: string, c: char)
    requires AllDigits(init) && IsDigit(c) && s == init + [c]
    ensures AllDigits(s) && NatOf(s) == 10 * NatOf(init) + DigitValue(c)
    ensures ClampedNat(s) ==
            if ClampedNat(init) < 1_000_000_000 then ClampedNat(init) * 10 + DigitValue(c) else ClampedNat(init)
  {
  }

  /** The length bound is tight: this literal of 10^9 - 1 characters is far out of range,
      yet parsing it succeeds. */
  lemma ClampBeyondLimit(mode: Mode)
    ensures Grammatical(LongLiteral()) && |Render(LongLiteral())| == 999_999_999
    ensures Parse(Render(LongLiteral()), mode) == Units(1_000_000_000_000_000_000)
    ensures Quantize(false, Coefficient(LongLiteral()), TrueShift(LongLiteral()), mode) == OutOfRange
  {
    hide Pow10, NatOf, ClampedNat, Quantize, Scan, Zeros, AllDigits;
    var l := LongLiteral();
    TenToTheTenth();
    ZerosTen();
    LongCoefficient(999_999_985);
    assert l.ip + l.fp == l.fp;
    EmptyDigits();
    assert Grammatical(l);
    ScanInvertsRender(l);
    assert ClampedShift(l) == 18 && Coefficient(l) == 1;
    EighteenZeros(mode);
    HugeShift(false, 1, TrueShift(l), mode);
  }

  lemma EmptyDigits()
    ensures AllDigits("")
  {
  }

  lemma ZerosTen()
    ensures "1" + Zeros(10) == "10000000000"
  {
  }

  lemma LongCoefficient(n: nat)
    ensures AllDigits(Zeros(n) + "1") && NatOf(Zeros(n) + "1") == 1
  {
    StepDigit(Zeros(n) + "1", Zeros(n), '1');
    NatOfZeros(n);
  }

  lemma EighteenZeros(mode: Mode)
    ensures Quantize(false, 1, 18, mode) == Units(1_000_000_000_000_000_000)
  {
    assert Pow10(18) == 1_000_000_000_000_000_000 by {
      assert Pow10(5) == 100_000;
      Pow10Add(5, 5);
      Pow10Add(10, 5);
      Pow10Add(15, 3);
      assert Pow10(3) == 1_000;
    }
  }
}
