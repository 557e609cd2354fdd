/** Decimal digit strings and the numbers they denote. */
module Digits {

  function Pow10(n: nat): (p: nat)
    ensures p > 0
  {
    if n == 0 then 1 else 10 * Pow10(n - 1)
  }

  lemma Pow10Step(n: nat)
    ensures Pow10(n + 1) == 10 * Pow10(n)
  {
  }

  predicate IsDigit(c: char) {
    '0' <= c <= '9'
  }

  predicate AllDigits(s: string) {
    forall i :: 0 <= i < |s| ==> IsDigit(s[i])
  }

  function DigitValue(c: char): nat
    requires IsDigit(c)
  {
    c as int - '0' as int
  }

  function DigitChar(d: nat): (c: char)
    requires d < 10
    ensures IsDigit(c) && DigitValue(c) == d
  {
    '0' + d as char
  }

  /** The number a digit string denotes. */
  function NatOf(s: string): nat
    requires AllDigits(s)
  {
    if s == "" then 0 else 10 * NatOf(s[..|s| - 1]) + DigitValue(s[|s| - 1])
  }

  function Zeros(n: nat): (s: string)
    ensures |s| == n && AllDigits(s)
  {
    seq(n, i => '0')
  }

  lemma {:induction false} Pow10Add(a: nat, b: nat)
    ensures Pow10(a + b) == Pow10(a) * Pow10(b)
  {
    if b == 0 {
    } else {
      Pow10Add(a, b - 1);
      var x, y: int := Pow10(a), Pow10(b - 1);
      assert 10 * (x * y) == x * (10 * y);
    }
  }

  lemma {:induction false} Pow10Grows(a: nat, b: nat)
    requires a <= b
    ensures Pow10(a) <= Pow10(b)
  {
    if a < b { Pow10Grows(a, b - 1); }
  }

  lemma {:induction false} NatOfBound(s: string)
    requires AllDigits(s)
    ensures NatOf(s) < Pow10(|s|)
  {
    if s != "" { NatOfBound(s[..|s| - 1]); }
  }

  /** Appending digits shifts the number and adds theirs. */
  lemma {:induction false} NatOfAppend(a: string, b: string)
    requires AllDigits(a) && AllDigits(b)
    ensures AllDigits(a + b) && NatOf(a + b) == NatOf(a) * Pow10(|b|) + NatOf(b)
    decreases |b|
  {
    if b == "" {
      assert a + b == a;
    } else {
      var init := b[..|b| - 1];
      NatOfAppend(a, init);
      assert (a + b)[..|a + b| - 1] == a + init;
      ScaleByTen(NatOf(a), Pow10(|init|));
    }
  }

  lemma ScaleByTen(x: int, p: int)
    ensures x * (10 * p) == 10 * (x * p)
  {
  }

  lemma {:induction false} NatOfZeros(n: nat)
    ensures NatOf(Zeros(n)) == 0
  {
    if n > 0 {
      assert Zeros(n)[..n - 1] == Zeros(n - 1);
      NatOfZeros(n - 1);
    }
  }

  lemma {:induction false} NatOfPrefix(s: string, n: nat)
    requires AllDigits(s) && n <= |s|
    ensures NatOf(s[..n]) <= NatOf(s)
    decreases |s|
  {
    if n < |s| {
      var init := s[..|s| - 1];
      assert s[..n] == init[..n];
      NatOfPrefix(init, n);
    } else {
      assert s[..n] == s;
    }
  }

  /** A leading non-zero digit puts the number into the top decade. */
  lemma LeadingDigit(s: string)
    requires AllDigits(s) && s != ""
    ensures NatOf(s) == DigitValue(s[0]) * Pow10(|s| - 1) + NatOf(s[1..])
    ensures NatOf(s[1..]) < Pow10(|s| - 1)
  {
    OneDigit(s[..1]);
    hide NatOf, Pow10, DigitValue;
    assert s == s[..1] + s[1..];
    NatOfAppend(s[..1], s[1..]);
    NatOfBound(s[1..]);
  }

  lemma OneDigit(s: string)
    requires |s| == 1 && AllDigits(s)
    ensures NatOf(s) == DigitValue(s[0])
  {
    assert s[..0] == "";
  }

  predicate AnyNonzero(s: string) {
    exists i :: 0 <= i < |s| && s[i] != '0'
  }

  lemma {:induction false} NonzeroIff(s: string)
    requires AllDigits(s)
    ensures AnyNonzero(s) <==> NatOf(s) > 0
  {
    if s != "" {
      var init := s[..|s| - 1];
      NonzeroIff(init);
      if AnyNonzero(init) {
        var i :| 0 <= i < |init| && init[i] != '0';
        assert s[i] != '0';
      }
    }
  }

  /** The decimal form strconv.AppendUint writes: no leading zeros, "0" for zero. */
  function DecimalOf(n: nat): (s: string)
    ensures s != "" && AllDigits(s) && NatOf(s) == n
    ensures n > 0 ==> s[0] != '0'
    ensures n == 0 ==> s == "0"
  {
    if n < 10 then
      assert [DigitChar(n)][..0] == "";
      [DigitChar(n)]
    else
      var init, last := DecimalOf(n / 10), DigitChar(n % 10);
      assert (init + [last])[..|init|] == init;
      init + [last]
  }

  /** At least one digit, and no superfluous zero in front. */
  predicate Plain(s: string) {
    s != "" && AllDigits(s) && (|s| > 1 ==> s[0] != '0')
  }

  lemma DecimalIsPlain(n: nat)
    ensures Plain(DecimalOf(n))
  {
  }

  /** The low `w` decimal digits of n, zero-padded. */
  function Padded(n: nat, w: nat): (s: string)
    ensures |s| == w && AllDigits(s)
  {
    if w == 0 then "" else Padded(n / 10, w - 1) + [DigitChar(n % 10)]
  }

  lemma {:induction false} PaddedValue(n: nat, w: nat)
    requires n < Pow10(w)
    ensures NatOf(Padded(n, w)) == n
  {
    if w > 0 {
      PaddedValue(n / 10, w - 1);
      var s := Padded(n, w);
      assert s[..w - 1] == Padded(n / 10, w - 1);
    }
  }
}
