/** Machine integers: the int64 range, wrap-around, truncating division and the
    overflow-checked primitives of internal/domain/fixed.go. */
module Int64 {

  datatype Option<+T> = None | Some(value: T)

  const MIN64: int := -0x8000_0000_0000_0000
  const MAX64: int := 0x7FFF_FFFF_FFFF_FFFF
  const TWO64: int := 0x1_0000_0000_0000_0000

  predicate Fits(x: int) {
    MIN64 <= x <= MAX64
  }

  type int64 = x: int | MIN64 <= x <= MAX64 witness 0

  /** The two's-complement value of the low 64 bits of `x`. */
  function Wrap(x: int): (r: int64)
    ensures (r - x) % TWO64 == 0
    ensures Fits(x) ==> r == x
  {
    var m := x % TWO64;
    if m > MAX64 then m - TWO64 else m
  }

  function Abs(x: int): nat {
    if x < 0 then -x else x
  }

  /** Go's `/`: the quotient truncated toward zero. */
  function TruncDiv(a: int, b: int): int
    requires b != 0
  {
    var m := Abs(a) / Abs(b);
    if (a < 0) == (b < 0) then m else 0 - m
  }

  /** Go's `%`: the remainder carries the sign of the dividend. */
  function TruncMod(a: int, b: int): int
    requires b != 0
  {
    a - TruncDiv(a, b) * b
  }

  /** The remainder is smaller than the divisor and has the dividend's sign. */
  lemma TruncDivSpec(a: int, b: int)
    requires b != 0
    ensures Abs(TruncMod(a, b)) < Abs(b)
    ensures a >= 0 ==> TruncMod(a, b) >= 0
    ensures a <= 0 ==> TruncMod(a, b) <= 0
  {
    var m: int := Abs(a) / Abs(b);
    DivModParts(Abs(a), Abs(b));
    MulSigns(m, b);
  }

  lemma DivModParts(n: nat, d: nat)
    requires d > 0
    ensures n == n / d * d + n % d
  {
  }

  lemma MulSigns(m: int, d: int)
    ensures (-m) * d == -(m * d)
    ensures m * -d == -(m * d)
    ensures (-m) * -d == m * d
  {
  }

  /** checkedAdd64: succeeds exactly when the mathematical sum is representable. */
  function CheckedAdd(a: int64, b: int64): (r: Option<int64>)
    ensures r == if Fits(a + b) then Some(a + b) else None
  {
    if (b > 0 && a > MAX64 - b) || (b < 0 && a < MIN64 - b) then None
    else var sum: int64 := a + b; Some(sum)
  }

  /** checkedSub64: succeeds exactly when the mathematical difference is representable. */
  function CheckedSub(a: int64, b: int64): (r: Option<int64>)
    ensures r == if Fits(a - b) then Some(a - b) else None
  {
    if (b < 0 && a > MAX64 + b) || (b > 0 && a < MIN64 + b) then None
    else var diff: int64 := a - b; Some(diff)
  }

  function CheckedNeg(a: int64): (r: Option<int64>)
    ensures r == if Fits(0 - a) then Some(0 - a) else None
  {
    if a == MIN64 then None else var neg: int64 := 0 - a; Some(neg)
  }

  /** checkedMul64: multiply with wrap-around, divide back, compare. The divide-back
      test is complete: it accepts exactly the products that are representable. */
  function CheckedMul(a: int64, b: int64): (r: Option<int64>)
    ensures r == if Fits(a * b) then Some(a * b) else None
  {
    if a == 0 || b == 0 then Some(0)
    else if (a == -1 && b == MIN64) || (b == -1 && a == MIN64) then None
    else
      var c := Wrap(a * b);
      DivideBack(a, b);
      if Wrap(TruncDiv(c, b)) != a then None else Some(c)
  }

  /** Dividing the wrapped product by `b` recovers `a` only if nothing was lost. */
  lemma DivideBack(a: int64, b: int64)
    requires a != 0 && b != 0
    requires !(a == -1 && b == MIN64) && !(b == -1 && a == MIN64)
    ensures Wrap(TruncDiv(Wrap(a * b), b)) == a <==> Fits(a * b)
  {
    var p: int := a * b;
    var c := Wrap(p);
    var q := TruncDiv(c, b);
    TruncDivSpec(c, b);
    QuotientFits(c, b);
    if Fits(p) {
      ExactQuotient(a, b, q);
    } else if b == -1 {
      assert false;
    } else {
      assert Wrap(q) == q;
      if q == a {
        LostBits(c, p, b);
      }
    }
  }

  /** c and p differ by a multiple of 2^64, and by less than |b| <= 2^63. */
  lemma LostBits(c: int64, p: int, b: int64)
    requires (c - p) % TWO64 == 0 && Abs(c - p) < Abs(b)
    ensures Fits(p)
  {
  }

  lemma ExactQuotient(a: int, b: int, q: int)
    requires b != 0 && Abs(a * b - q * b) < Abs(b)
    ensures q == a
  {
    assert a * b - q * b == (a - q) * b;
    if a - q >= 1 {
      MulGrows(a - q, b);
    } else if a - q <= -1 {
      MulGrows(q - a, b);
      MulSigns(q - a, b);
    }
  }

  lemma MulGrows(k: int, b: int)
    requires k >= 1
    ensures Abs(k * b) >= Abs(b)
  {
  }

  lemma MulNonneg(a: int, b: int)
    requires a >= 0 && b >= 0
    ensures a * b >= 0
  {
  }

  lemma QuotientFits(c: int64, b: int64)
    requires b != 0
    ensures Fits(TruncDiv(c, b)) || (b == -1 && c == MIN64)
  {
  }

  lemma MulGrowsBy(q: int, b: int)
    requires q >= 0 && b >= 2
    ensures q * b >= 2 * q
  {
  }
}
