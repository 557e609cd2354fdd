/** Round-half-even division: one arithmetic meaning and the three codes that
    implement it (internal/domain/fixed.go, internal/accounting/math.go). */
module Rounding {
  import opened Int64

  /** `q` is n/d rounded to the nearest integer, ties to the even neighbour. */
  predicate NearestEven(n: int, d: int, q: int)
    requires d > 0
  {
    var e := 2 * (n - q * d);
    -d <= e <= d && (e == d || e == -d ==> q % 2 == 0)
  }

  lemma NearestEvenUnique(n: int, d: int, p: int, q: int)
    requires d > 0 && NearestEven(n, d, p) && NearestEven(n, d, q)
    ensures p == q
  {
    if p < q {
      MulGap(p, q, d);
    } else if q < p {
      MulGap(q, p, d);
    }
  }

  /** Two different integers are at least d apart once scaled by d; two apart, 2d. */
  lemma MulGap(p: int, q: int, d: int)
    requires p < q && d > 0
    ensures q * d - p * d >= d
    ensures q - p >= 2 ==> q * d - p * d >= 2 * d
  {
    assert q * d - p * d == (q - p) * d;
    assert (q - p) * d == d + (q - p - 1) * d;
    MulNonneg(q - p - 1, d);
    if q - p >= 2 {
      assert (q - p) * d == 2 * d + (q - p - 2) * d;
      MulNonneg(q - p - 2, d);
    }
  }

  /** A nearest integer never crosses an integer bound of the quotient. */
  lemma NearestEvenBounds(n: int, d: int, q: int, lo: int, hi: int)
    requires d > 0 && NearestEven(n, d, q)
    requires lo * d <= n <= hi * d
    ensures lo <= q <= hi
  {
    if q < lo {
      MulGap(q, lo, d);
    } else if q > hi {
      MulGap(hi, q, d);
    }
  }

  /** The three-way test on a doubled remainder. */
  function RoundUp(q: int, r: int, d: int): int {
    if 2 * r > d || (2 * r == d && q % 2 == 1) then q + 1 else q
  }

  lemma RemainderTest(n: nat, d: nat)
    requires d > 0
    ensures NearestEven(n, d, RoundUp(n / d, n % d, d))
  {
    DivModParts(n, d);
    assert (n / d + 1) * d == n / d * d + d;
  }

  /** roundHalfEvenDiv of internal/domain/fixed.go. */
  function DomainDiv(v: int64, d: int64): int
    requires d > 0
  {
    var q := TruncDiv(v, d);
    var r := TruncMod(v, d);
    if r == 0 then q
    else
      var half := d / 2;
      if Abs(r) > half || (Abs(r) == half && TruncMod(q, 2) != 0) then
        if v < 0 then q - 1 else q + 1
      else q
  }

  /** The domain code rounds half to even for every even divisor; on an odd divisor it
      goes wrong exactly just below the midpoint of an odd quotient. */
  lemma DomainDivExact(v: int64, d: int64)
    requires d > 0
    ensures NearestEven(v, d, DomainDiv(v, d)) <==>
            !(d % 2 == 1 && d > 1 && Abs(v) % d == d / 2 && Abs(v) / d % 2 == 1)
  {
    hide TruncDiv, TruncMod, NearestEven;
    TruncParts(v, d);
    var n, a := Abs(v), Abs(v) / d;
    var q := TruncDiv(v, d);
    assert Abs(TruncMod(v, d)) == n % d;
    assert TruncMod(q, 2) != 0 <==> a % 2 == 1 by { TruncParity(q); }
    DivModParts(n, d);
    RemainderTest(n, d);
    var up := if n % d != 0 && (n % d > d / 2 || (n % d == d / 2 && a % 2 == 1)) then a + 1 else a;
    assert DomainDiv(v, d) == if v < 0 then 0 - up else up;
    SymmetricNearest(v, d, up);
    if d % 2 == 1 && d > 1 && n % d == d / 2 && a % 2 == 1 {
      if NearestEven(n, d, up) {
        NearestEvenUnique(n, d, a, up);
      }
    }
  }

  lemma SymmetricNearest(v: int, d: int, q: int)
    requires d > 0
    ensures NearestEven(v, d, if v < 0 then 0 - q else q) <==> NearestEven(Abs(v), d, q)
  {
    MulSigns(q, d);
  }

  lemma TruncParity(q: int)
    ensures TruncMod(q, 2) != 0 <==> Abs(q) % 2 == 1
  {
  }

  /** Truncating division in terms of the magnitudes. */
  lemma TruncParts(v: int, d: int)
    requires d > 0
    ensures TruncDiv(v, d) == if v < 0 then 0 - Abs(v) / d else v / d
    ensures TruncMod(v, d) == if v < 0 then 0 - Abs(v) % d else v % d
  {
  }

  /** roundHalfEvenDiv of internal/accounting/math.go, with its 64-bit wrap-around. */
  function AccountingDiv(v: int64, d: int64): int64 {
    if d == 0 then 0
    else
      var neg := v < 0;
      var m := if neg then Wrap(0 - v) else v;
      AccountingRound(Wrap(TruncDiv(m, d)), TruncMod(m, d), d, neg)
  }

  /** The tie test on quotient `q` and remainder `r`, and the sign restored. */
  function AccountingRound(q: int64, r: int, d: int64, neg: bool): int64 {
    var twice := Wrap(r * 2);
    var up := if twice > d || (twice == d && TruncMod(q, 2) != 0) then Wrap(q + 1) else q;
    if neg then Wrap(0 - up) else up
  }

  /** The accounting code is right exactly when the doubled remainder fits int64 and the
      dividend has a magnitude (MinInt64 has none, except by luck when d is 1). */
  lemma AccountingDivExact(v: int64, d: int64)
    requires d > 0
    ensures NearestEven(v, d, AccountingDiv(v, d)) <==>
            (v != MIN64 || d == 1) && 2 * (Abs(v) % d) <= MAX64
  {
    if v == MIN64 {
      AccountingDivMin(d);
    } else {
      var n := Abs(v);
      var up := AccountingMagnitude(v, d);
      AccountingDivRegular(v, d);
      SymmetricNearest(v, d, up);
      RemainderTest(n, d);
      if 2 * (n % d) > MAX64 && NearestEven(n, d, up) {
        NearestEvenUnique(n, d, up, up + 1);
      }
    }
  }

  /** What the code computes on a magnitude; a doubled remainder that wraps turns negative. */
  function AccountingMagnitude(v: int64, d: int64): int
    requires d > 0
  {
    var n := Abs(v);
    MagnitudeRound(n / d, n % d, d)
  }

  function MagnitudeRound(q: int, r: int, d: int): int {
    if 2 * r <= MAX64 then RoundUp(q, r, d) else q
  }

  lemma AccountingRoundRegular(q: int64, r: int64, d: int64, neg: bool)
    requires 0 <= r < d && q >= 0 && (q == MAX64 ==> r == 0)
    ensures AccountingRound(q, r, d, neg) ==
            if neg then 0 - MagnitudeRound(q, r, d) else MagnitudeRound(q, r, d)
  {
  }

  lemma AccountingDivRegular(v: int64, d: int64)
    requires d > 0 && v != MIN64
    ensures AccountingDiv(v, d) == if v < 0 then 0 - AccountingMagnitude(v, d) else AccountingMagnitude(v, d)
  {
    hide TruncDiv, TruncMod, AccountingRound, MagnitudeRound;
    var n: int64 := if v < 0 then 0 - v else v;
    TruncParts(n, d);
    DivShrinks(n, d);
    if n / d == MAX64 {
      RemainderOfOne(n, d);
    }
    AccountingRoundRegular(n / d, n % d, d, v < 0);
  }

  lemma RemainderOfOne(n: nat, d: nat)
    requires d > 0 && n / d == n && n > 0
    ensures n % d == 0
  {
    DivModParts(n, d);
    if d > 1 { MulGrowsBy(n, d); }
  }

  lemma DivShrinks(n: nat, d: nat)
    requires d > 0
    ensures n / d <= n
    ensures n <= n * d
  {
    assert n * d == n + n * (d - 1);
    MulNonneg(n, d - 1);
    DivModParts(n, d);
    if n / d > n {
      MulGap(n, n / d, d);
    }
  }

  lemma AccountingDivMin(d: int64)
    requires d > 0
    ensures NearestEven(MIN64, d, AccountingDiv(MIN64, d)) <==> d == 1
  {
    var n := 0 - MIN64;
    TruncParts(MIN64, d);
    DivModParts(n, d);
    if d == 1 {
      assert AccountingDiv(MIN64, d) == MIN64;
    } else {
      var a := n / d;
      assert 1 <= a by {
        if a < 1 { MulGap(a, 1, d); }
      }
      MulGrowsBy(a, d);
      assert AccountingDiv(MIN64, d) >= 0;
      if NearestEven(MIN64, d, AccountingDiv(MIN64, d)) {
        NearestEvenBounds(MIN64, d, AccountingDiv(MIN64, d), 0 - n, -1);
      }
    }
  }

  /** mulDivRoundHalfEven: v*num/den on unbounded integers, one rounding at the end. */
  function MulDiv(v: int64, num: int64, den: int64): int64 {
    if den == 0 || num == 0 then 0 else BigDiv(v * num, den)
  }

  function BigDiv(prod: int, den: int64): int64
    requires den != 0
  {
    var n := Abs(prod);
    var up := RoundUp(TruncDiv(n, den), TruncMod(n, den), den);
    Wrap(if prod < 0 then 0 - up else up)
  }

  lemma BigDivNearest(prod: nat, den: int64, lo: int64, hi: int64)
    requires den > 0 && lo * den <= prod <= hi * den
    ensures NearestEven(prod, den, BigDiv(prod, den))
    ensures lo <= BigDiv(prod, den) <= hi
  {
    hide NearestEven, RoundUp;
    TruncParts(prod, den);
    RemainderTest(prod, den);
    NearestEvenBounds(prod, den, RoundUp(prod / den, prod % den, den), lo, hi);
  }

  /** Releasing a share num/den of a non-negative basis: correctly rounded, never more
      than the basis and never negative, so it needs no overflow check. */
  lemma MulDivShare(v: int64, num: int64, den: int64)
    requires v >= 0 && 0 <= num <= den && den > 0
    ensures NearestEven(v * num, den, MulDiv(v, num, den))
    ensures 0 <= MulDiv(v, num, den) <= v
    ensures num == den ==> MulDiv(v, num, den) == v
  {
    hide BigDiv;
    ScaledShare(v, num, den);
    if num == 0 {
      assert v * 0 == 0;
    } else {
      BigDivNearest(v * num, den, 0, v);
      if num == den {
        BigDivNearest(v * num, den, v, v);
      }
    }
  }

  /** For any factors and a positive divisor: the low 64 bits of the half-even quotient. */
  lemma MulDivNearest(v: int64, num: int64, den: int64) returns (q: int)
    requires den > 0
    ensures NearestEven(v * num, den, q) && MulDiv(v, num, den) == Wrap(q)
  {
    hide NearestEven, RoundUp, TruncDiv, TruncMod;
    var n := Abs(v * num);
    TruncParts(n, den);
    RemainderTest(n, den);
    var up := RoundUp(n / den, n % den, den);
    SymmetricNearest(v * num, den, up);
    q := if v * num < 0 then 0 - up else up;
    if num == 0 {
      assert v * num == 0;
      ZeroIsNearest(den);
      NearestEvenUnique(0, den, q, 0);
    }
  }

  lemma ZeroIsNearest(den: int)
    requires den > 0
    ensures NearestEven(0, den, 0)
  {
  }

  lemma ScaledShare(v: int, num: int, den: int)
    requires v >= 0 && 0 <= num <= den
    ensures 0 * den <= v * num <= v * den
  {
  }

  /** Three codes, one function. */
  lemma ThreeCodesAgree(v: int64, d: int64)
    requires v > MIN64 && 0 < d <= 0x4000_0000_0000_0000 && d % 2 == 0
    ensures DomainDiv(v, d) == AccountingDiv(v, d) == MulDiv(v, 1, d)
    ensures NearestEven(v, d, MulDiv(v, 1, d))
  {
    hide NearestEven, BigDiv, DomainDiv, AccountingDiv;
    DomainDivExact(v, d);
    AccountingDivExact(v, d);
    NearestEvenUnique(v, d, DomainDiv(v, d), AccountingDiv(v, d));
    BigDivSymmetric(v, d);
    assert v * 1 == v;
    NearestEvenUnique(v, d, DomainDiv(v, d), MulDiv(v, 1, d));
  }

  lemma BigDivSymmetric(v: int64, d: int64)
    requires v > MIN64 && d > 0
    ensures NearestEven(v, d, BigDiv(v, d))
  {
    hide NearestEven, RoundUp;
    var n := Abs(v);
    TruncParts(n, d);
    RemainderTest(n, d);
    DivShrinks(n, d);
    var up := RoundUp(n / d, n % d, d);
    NearestEvenBounds(n, d, up, 0, n);
    SymmetricNearest(v, d, up);
  }

  /** roundMoneyToCents: 1e-4 units to whole cents and back. */
  function RoundToCents(m: int64): int64 {
    Wrap(AccountingDiv(m, 100) * 100)
  }

  /** Quantizing to cents moves an amount by at most half a cent, except MinInt64. */
  lemma RoundToCentsExact(m: int64)
    ensures m != MIN64 <==> -50 <= RoundToCents(m) - m <= 50
    ensures m != MIN64 ==> RoundToCents(m) % 100 == 0 && NearestEven(m, 100, RoundToCents(m) / 100)
  {
    if m == MIN64 {
      CentsOfMin();
    } else {
      AccountingDivExact(m, 100);
      CentsInRange(m, AccountingDiv(m, 100));
    }
  }

  lemma CentsInRange(m: int, c: int)
    requires NearestEven(m, 100, c)
    ensures -50 <= c * 100 - m <= 50
    ensures Fits(m) ==> Fits(c * 100)
  {
  }

  lemma CentsOfMin()
    ensures RoundToCents(MIN64) > 0
  {
    TruncParts(MIN64, 100);
    assert AccountingDiv(MIN64, 100) == 92233720368547758;
  }
}
