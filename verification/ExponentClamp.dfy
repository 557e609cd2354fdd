/** parseFixed4 stops accumulating an exponent at 10^9. Exactly which literals that changes. */
module ExponentClamp {
  import opened Int64
  import opened Rounding
  import opened Digits
  import opened Literals
  import opened FixedParse
  import opened DecimalMeaning

  /** d * 10^s is too small to yield a non-zero unit: not an integer, or at most one half. */
  predicate Vanishes(d: nat, s: int, mode: Mode) {
    s < 0 && TooSmall(d, Pow10(0 - s), mode)
  }

  predicate TooSmall(n: nat, p: nat, mode: Mode)
    requires p > 0
  {
    if mode == Exact then n % p != 0 else 2 * n <= p
  }

  /** The largest magnitude an int64 of this sign has. */
  function Limit(neg: bool): int {
    if neg then MAG_LIMIT else MAG_LIMIT - 1
  }

  /** d * 10^s is past the int64 range: an integer above the limit, or rounding to one. A tie
      half a unit above the limit stays on MinInt64, which is even, and leaves MaxInt64. */
  predicate Beyond(neg: bool, d: nat, s: int, mode: Mode) {
    if s >= 0 then d * Pow10(s) > Limit(neg) else TooLarge(neg, d, Pow10(0 - s), mode)
  }

  predicate TooLarge(neg: bool, n: nat, p: nat, mode: Mode)
    requires p > 0
  {
    if mode == Exact then n % p == 0 && n > Limit(neg) * p else PastMidpoint(n, p, Limit(neg))
  }

  /** n / p lies past limit + 1/2, or on it when the limit is odd. */
  predicate PastMidpoint(n: nat, p: nat, limit: int) {
    if limit % 2 == 0 then 2 * n > (2 * limit + 1) * p else 2 * n >= (2 * limit + 1) * p
  }

  /** Two different exponents give the same answer only beyond both ends of the scale: the
      smaller one is already past the range, or the larger one still vanishes. */
  predicate Harmless(neg: bool, d: nat, s: int, t: int, mode: Mode) {
    || s == t || d == 0
    || (s < t && (Beyond(neg, d, s, mode) || Vanishes(d, t, mode)))
    || (t < s && (Beyond(neg, d, t, mode) || Vanishes(d, s, mode)))
  }

  lemma RangedIff(neg: bool, mag: nat)
    ensures Ranged(neg, mag) == OutOfRange <==> mag > Limit(neg)
  {
  }

  lemma ExactAbove(n: nat, p: nat, limit: int)
    requires p > 0 && n % p == 0
    ensures n / p > limit <==> n > limit * p
  {
    var q: int := n / p;
    DivModParts(n, p);
    if q > limit { MulGap(limit, q, p); } else if q < limit { MulGap(q, limit, p); }
  }

  /** When a nearest integer exceeds a limit: past the midpoint above it, the midpoint itself
      counting exactly when the limit is odd. */
  lemma NearestAbove(n: nat, p: nat, q: int, limit: int)
    requires p > 0 && NearestEven(n, p, q)
    ensures q > limit <==> PastMidpoint(n, p, limit)
  {
    Midpoint(limit, p);
    if q > limit {
      MulGap(limit, q, p);
    } else if q < limit {
      MulGap(q, limit, p);
    }
    MidpointTest(n, p, q, limit, limit * p, q * p);
  }

  lemma Midpoint(limit: int, p: int)
    ensures (2 * limit + 1) * p == 2 * (limit * p) + p
    ensures (limit + 1) * p == limit * p + p
  {
  }

  /** The same with the two products as plain numbers. */
  lemma MidpointTest(n: int, p: int, q: int, limit: int, a: int, b: int)
    requires p > 0 && -p <= 2 * (n - b) <= p && (2 * (n - b) == p || 2 * (n - b) == -p ==> q % 2 == 0)
    requires q == limit ==> b == a
    requires q == limit + 1 ==> b == a + p
    requires q > limit + 1 ==> b >= a + 2 * p
    requires q < limit ==> b <= a - p
    ensures q > limit <==> if limit % 2 == 0 then 2 * n > 2 * a + p else 2 * n >= 2 * a + p
  {
  }

  /** The arithmetic condition is exactly the out-of-range result. */
  lemma BeyondIff(neg: bool, d: nat, s: int, mode: Mode)
    ensures Beyond(neg, d, s, mode) <==> Quantize(neg, d, s, mode) == OutOfRange
  {
    hide Pow10, Ranged, HalfEvenQuotient, TooLarge;
    if s >= 0 {
      RangedIff(neg, d * Pow10(s));
    } else {
      TooLargeIff(neg, d, Pow10(0 - s), mode);
    }
  }

  lemma TooLargeIff(neg: bool, n: nat, p: nat, mode: Mode)
    requires p > 0
    ensures TooLarge(neg, n, p, mode) <==> Cut(neg, n, p, mode) == OutOfRange
  {
    hide Ranged, HalfEvenQuotient, NearestEven, PastMidpoint, Limit;
    RangedIff(neg, n / p);
    RangedIff(neg, HalfEvenQuotient(n, p));
    if mode == HalfEven {
      HalfEvenNearest(n, p);
      NearestAbove(n, p, HalfEvenQuotient(n, p), Limit(neg));
    } else if n % p == 0 {
      ExactAbove(n, p, Limit(neg));
    }
  }

  /** n / p as an int64 under a rounding mode. */
  function Cut(neg: bool, n: nat, p: nat, mode: Mode): Parsed
    requires p > 0
  {
    if mode == Exact then if n % p != 0 then Inexact else Ranged(neg, n / p)
    else Ranged(neg, HalfEvenQuotient(n, p))
  }

  // ---- a common factor changes nothing ----

  lemma Factored(n: nat, p: nat, k: nat)
    requires p > 0 && k > 0
    ensures p * k > 0 && n * k / (p * k) == n / p && n * k % (p * k) == n % p * k
  {
    DivModParts(n, p);
    Scale(n, n / p, n % p, p, k);
    MulNonneg(n % p, k);
    MulGap(n % p, p, k);
    var r, m := n % p * k, p * k;
    QuotientOf(n / p, r, m);
  }

  lemma Scale(n: int, q: int, r: int, p: int, k: int)
    requires n == q * p + r
    ensures n * k == q * (p * k) + r * k
  {
  }

  lemma RoundUpScales(q: int, r: int, p: int, k: int)
    requires k > 0
    ensures RoundUp(q, r * k, p * k) == RoundUp(q, r, p)
  {
  }

  lemma CutCancels(neg: bool, n: nat, p: nat, k: nat, mode: Mode)
    requires p > 0 && k > 0
    ensures p * k > 0 && Cut(neg, n * k, p * k, mode) == Cut(neg, n, p, mode)
  {
    hide Ranged, RoundUp;
    Factored(n, p, k);
    RoundUpScales(n / p, n % p, p, k);
    if n % p > 0 { MulGap(0, n % p, k); }
  }

  lemma TooSmallCancels(n: nat, p: nat, k: nat, mode: Mode)
    requires p > 0 && k > 0
    ensures p * k > 0 && TooSmall(n * k, p * k, mode) == TooSmall(n, p, mode)
  {
    Factored(n, p, k);
    assert 2 * (n * k) == (2 * n) * k;
    if n % p > 0 { MulGap(0, n % p, k); }
    if 2 * n > p { MulGap(p, 2 * n, k); } else if 2 * n < p { MulGap(2 * n, p, k); }
  }

  /** Quantize over any common denominator 10^k. */
  lemma QuantizeIsCut(neg: bool, d: nat, s: int, k: nat, mode: Mode)
    requires s + k >= 0
    ensures Quantize(neg, d, s, mode) == Cut(neg, d * Pow10(s + k), Pow10(k), mode)
    ensures d > 0 ==> Vanishes(d, s, mode) == TooSmall(d * Pow10(s + k), Pow10(k), mode)
  {
    hide Pow10, Ranged, RoundUp, TooSmall;
    if s >= 0 {
      var n := d * Pow10(s);
      Pow10Add(s, k);
      assert d * (Pow10(s) * Pow10(k)) == n * Pow10(k);
      assert 1 * Pow10(k) == Pow10(k);
      CutCancels(neg, n, 1, Pow10(k), mode);
      TooSmallCancels(n, 1, Pow10(k), mode);
      WholeNumber(neg, n, mode);
      if d > 0 { Positive(d, Pow10(s)); }
    } else {
      Pow10Add(0 - s, s + k);
      CutCancels(neg, d, Pow10(0 - s), Pow10(s + k), mode);
      TooSmallCancels(d, Pow10(0 - s), Pow10(s + k), mode);
    }
  }

  lemma Positive(a: int, b: int)
    requires a > 0 && b > 0
    ensures a * b > 0
  {
  }

  lemma WholeNumber(neg: bool, n: nat, mode: Mode)
    ensures Cut(neg, n, 1, mode) == Ranged(neg, n)
    ensures n > 0 ==> !TooSmall(n, 1, mode)
  {
  }

  // ---- ten times the value is another answer ----

  lemma MagnitudesDiffer(neg: bool, a: nat, b: nat)
    requires a < b
    ensures Ranged(neg, a) == OutOfRange ==> Ranged(neg, b) == OutOfRange
    ensures Ranged(neg, a) == Ranged(neg, b) ==> Ranged(neg, a) == OutOfRange
  {
  }

  lemma ExactGrows(n: nat, p: nat, k: nat)
    requires p > 0 && n > 0 && k >= 2 && n % p == 0
    ensures n * k % p == 0 && n / p < n * k / p
  {
    var q := n / p;
    DivModParts(n, p);
    assert n == q * p;
    assert q > 0;
    assert n * k == (q * k) * p + 0;
    MulNonneg(q, k);
    QuotientOf(q * k, 0, p);
    MulGap(1, k, q);
    assert q * k == k * q;
  }

  /** Half-even quotients never decrease, and grow once the larger one is not zero. */
  lemma HalfEvenGrows(n: nat, p: nat, k: nat)
    requires p > 0 && n > 0 && k >= 10
    ensures 2 * (n * k) <= p ==> HalfEvenQuotient(n * k, p) == 0 && HalfEvenQuotient(n, p) == 0
    ensures 2 * (n * k) > p ==> HalfEvenQuotient(n, p) < HalfEvenQuotient(n * k, p)
  {
    hide HalfEvenQuotient;
    var x, y: int := HalfEvenQuotient(n, p), HalfEvenQuotient(n * k, p);
    HalfEvenNearest(n, p);
    HalfEvenNearest(n * k, p);
    assert n * k >= 10 * n by { assert n * k == 10 * n + n * (k - 10); MulNonneg(n, k - 10); }
    if 2 * (n * k) <= p {
      NearestZero(n * k, p, y);
      NearestZero(n, p, x);
    } else {
      Apart(n, n * k, p, x, y);
    }
  }

  lemma NearestZero(n: nat, p: nat, x: int)
    requires p > 0 && 2 * n <= p && NearestEven(n, p, x)
    ensures x == 0
  {
  }

  lemma Apart(n: nat, m: nat, p: nat, x: int, y: int)
    requires p > 0 && m >= 10 * n && 2 * m > p && n > 0
    requires NearestEven(n, p, x) && NearestEven(m, p, y) && x >= 0 && y >= 0
    ensures x < y
  {
    assert 0 * p == 0;
    if x > 0 { MulGap(0, x, p); }
    if y < x { MulGap(y, x, p); }
  }

  lemma CutDiffers(neg: bool, n: nat, p: nat, k: nat, mode: Mode)
    requires p > 0 && n > 0 && k >= 10
    ensures n * k >= 0
    ensures Cut(neg, n, p, mode) == Cut(neg, n * k, p, mode) <==>
            Cut(neg, n, p, mode) == OutOfRange || TooSmall(n * k, p, mode)
  {
    hide Ranged, HalfEvenQuotient;
    MulNonneg(n, k);
    if mode == Exact {
      ExactDiffers(neg, n, p, k);
    } else {
      HalfEvenGrows(n, p, k);
      if 2 * (n * k) > p {
        MagnitudesDiffer(neg, HalfEvenQuotient(n, p), HalfEvenQuotient(n * k, p));
      }
    }
  }

  lemma ExactDiffers(neg: bool, n: nat, p: nat, k: nat)
    requires p > 0 && n > 0 && k >= 10 && n * k >= 0
    ensures Cut(neg, n, p, Exact) == Cut(neg, n * k, p, Exact) <==>
            Cut(neg, n, p, Exact) == OutOfRange || TooSmall(n * k, p, Exact)
  {
    hide Ranged, HalfEvenQuotient;
    if n % p == 0 {
      ExactGrows(n, p, k);
      MagnitudesDiffer(neg, n / p, n * k / p);
    } else if n * k % p == 0 {
      RangedNeverInexact(neg, n * k / p);
    }
  }

  lemma ShiftsDiffer(neg: bool, d: nat, s: int, t: int, mode: Mode)
    requires s < t && d > 0
    ensures Quantize(neg, d, s, mode) == Quantize(neg, d, t, mode) <==>
            Quantize(neg, d, s, mode) == OutOfRange || Vanishes(d, t, mode)
  {
    hide Quantize, Cut, Vanishes, TooSmall, Pow10;
    var k: nat := if s < 0 then 0 - s else 0;
    QuantizeIsCut(neg, d, s, k, mode);
    QuantizeIsCut(neg, d, t, k, mode);
    var n, f := d * Pow10(s + k), Pow10(t - s);
    Positive(d, Pow10(s + k));
    Pow10Add(s + k, t - s);
    assert d * (Pow10(s + k) * f) == n * f;
    Pow10Grows(1, t - s);
    TenToTheFirst();
    CutDiffers(neg, n, Pow10(k), f, mode);
  }

  lemma TenToTheFirst()
    ensures Pow10(1) == 10
  {
  }

  /** At every length: parsing means the literal's own value, rounded under the mode, if and
      only if the clamp is harmless. */
  lemma ParseMeansValueIff(l: Literal, mode: Mode)
    requires Grammatical(l)
    ensures Parse(Render(l), mode) == Quantize(Negative(l), Coefficient(l), TrueShift(l), mode) <==>
            Harmless(Negative(l), Coefficient(l), ClampedShift(l), TrueShift(l), mode)
  {
    hide Quantize, Beyond, Vanishes, Coefficient, ClampedShift, TrueShift, Scan, Render, Grammatical;
    ScanInvertsRender(l);
    var neg, d, s, t := Negative(l), Coefficient(l), ClampedShift(l), TrueShift(l);
    if d == 0 {
      QuantizeZero(neg, s, mode);
      QuantizeZero(neg, t, mode);
    } else if s < t {
      BeyondIff(neg, d, s, mode);
      ShiftsDiffer(neg, d, s, t, mode);
    } else if t < s {
      BeyondIff(neg, d, t, mode);
      ShiftsDiffer(neg, d, t, s, mode);
    }
  }
}
