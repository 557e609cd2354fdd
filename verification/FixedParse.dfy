/** parseFixed4 and parseMagnitude of internal/domain/fixed.go: digit-level parsing into
    1e-4 units, proved against rational arithmetic. */
module FixedParse {
  import opened Int64
  import opened Rounding
  import opened Digits
  import opened Literals

  datatype Mode = Exact | HalfEven

  datatype Parsed = Units(value: int64) | InvalidNumber | Inexact | OutOfRange

  /** 2^63, the magnitude of MinInt64. */
  const MAG_LIMIT: int := 0x8000_0000_0000_0000

  /** A signed magnitude as an int64, or out of range. */
  function Ranged(neg: bool, mag: nat): Parsed {
    if mag > MAG_LIMIT || (!neg && mag == MAG_LIMIT) then OutOfRange
    else
      var v: int64 := if neg then 0 - mag else mag;
      Units(v)
  }

  /** +-d * 10^shift as an int64 under a rounding mode. */
  function Quantize(neg: bool, d: nat, shift: int, mode: Mode): Parsed {
    if shift >= 0 then Ranged(neg, d * Pow10(shift))
    else
      var p := Pow10(0 - shift);
      if mode == Exact then
        if d % p != 0 then Inexact else Ranged(neg, d / p)
      else Ranged(neg, HalfEvenQuotient(d, p))
  }

  function HalfEvenQuotient(d: nat, p: nat): nat
    requires p > 0
  {
    RoundUp(d / p, d % p, p)
  }

  /** The exponent as the code accumulates it: digits stop counting once it reaches 10^9. */
  function ClampedNat(digits: string): nat
    requires AllDigits(digits)
  {
    if digits == "" then 0
    else
      var e := ClampedNat(digits[..|digits| - 1]);
      if e < 1_000_000_000 then e * 10 + DigitValue(digits[|digits| - 1]) else e
  }

  function ClampedExponent(e: Exponent): int
    requires ExponentOk(e)
  {
    match e
    case NoExponent => 0
    case Exponent(_, s, d) => if s == "-" then 0 - ClampedNat(d) else ClampedNat(d)
  }

  function ClampedShift(l: Literal): int
    requires Grammatical(l)
  {
    ClampedExponent(l.exp) - |l.fp| + 4
  }

  /** What parseFixed4 returns. */
  function Parse(s: string, mode: Mode): Parsed {
    match Scan(s)
    case None => InvalidNumber
    case Some(l) =>
      ScanIsSound(s);
      Quantize(Negative(l), Coefficient(l), ClampedShift(l), mode)
  }

  // ---- digits below the cut ----

  /** First cut digit and sticky tail decide how the cut compares with one half. */
  lemma StickyRule(tail: string)
    requires AllDigits(tail) && tail != ""
    ensures var first, rest, half := tail[0], tail[1..], Pow10(|tail|);
            && (first > '5' || (first == '5' && AnyNonzero(rest)) <==> 2 * NatOf(tail) > half)
            && (first == '5' && !AnyNonzero(rest) <==> 2 * NatOf(tail) == half)
            && (first == '0' && !AnyNonzero(rest) <==> NatOf(tail) == 0)
  {
    hide NatOf, Pow10, AnyNonzero;
    LeadingDigit(tail);
    NonzeroIff(tail[1..]);
    Pow10Step(|tail| - 1);
    TopDigit(DigitValue(tail[0]), Pow10(|tail| - 1), NatOf(tail[1..]));
  }

  lemma TopDigit(v: int, p: int, low: int)
    requires 0 <= v < 10 && 0 <= low < p
    ensures v >= 6 ==> 2 * (v * p + low) > 10 * p
    ensures v <= 4 ==> 2 * (v * p + low) < 10 * p
    ensures v == 5 ==> (low > 0 <==> 2 * (v * p + low) > 10 * p)
    ensures v == 5 ==> (low == 0 <==> 2 * (v * p + low) == 10 * p)
    ensures v * p + low == 0 <==> v == 0 && low == 0
  {
  }

  /** Cutting k digits off a digit string divides by 10^k. */
  lemma CutDivides(kept: string, tail: string)
    requires AllDigits(kept) && AllDigits(tail)
    ensures AllDigits(kept + tail)
    ensures NatOf(kept + tail) / Pow10(|tail|) == NatOf(kept)
    ensures NatOf(kept + tail) % Pow10(|tail|) == NatOf(tail)
  {
    NatOfAppend(kept, tail);
    NatOfBound(tail);
    QuotientOf(NatOf(kept), NatOf(tail), Pow10(|tail|));
  }

  lemma QuotientOf(q: nat, r: nat, p: nat)
    requires r < p
    ensures (q * p + r) / p == q && (q * p + r) % p == r
  {
    var n := q * p + r;
    DivModParts(n, p);
    if n / p < q {
      MulGap(n / p, q, p);
    } else if n / p > q {
      MulGap(q, n / p, p);
    }
  }

  // ---- the code ----

  /** parseMagnitude: succeeds exactly up to 2^63. */
  method ParseMagnitude(digits: string) returns (r: Option<nat>)
    requires AllDigits(digits)
    ensures r == if NatOf(digits) <= MAG_LIMIT then Some(NatOf(digits)) else None
  {
    var mag := 0;
    for i := 0 to |digits|
      invariant mag == NatOf(digits[..i]) <= MAG_LIMIT
    {
      var d := DigitValue(digits[i]);
      assert digits[..i + 1][..i] == digits[..i];
      NatOfPrefix(digits, i + 1);
      if mag > (0xFFFF_FFFF_FFFF_FFFF - d) / 10 {
        return None;
      }
      mag := mag * 10 + d;
      if mag > MAG_LIMIT {
        return None;
      }
    }
    assert digits[..|digits|] == digits;
    return Some(mag);
  }

  /** The multiplication loop for a non-negative shift. */
  method ScaleUp(start: nat, shift: nat) returns (r: Option<nat>)
    requires 0 < start <= MAG_LIMIT
    ensures r == if start * Pow10(shift) <= MAG_LIMIT then Some(start * Pow10(shift)) else None
  {
    var mag := start;
    for k := 0 to shift
      invariant mag == start * Pow10(k) && 0 < mag <= MAG_LIMIT
    {
      ScaleByTen(start, Pow10(k));
      ScaledGrows(start, k + 1, shift);
      if mag > MAG_LIMIT / 10 {
        return None;
      }
      mag := mag * 10;
    }
    return Some(mag);
  }

  lemma ScaledGrows(x: nat, a: nat, b: nat)
    requires a <= b
    ensures x * Pow10(a) <= x * Pow10(b)
  {
  }

  method SignedUnits(neg: bool, mag: nat) returns (r: Parsed)
    ensures r == Ranged(neg, mag)
  {
    if mag > MAG_LIMIT || (!neg && mag == MAG_LIMIT) {
      return OutOfRange;
    }
    if neg {
      return Units(0 - mag);
    }
    return Units(mag);
  }

  /** The branch for digits below 1e-4: keep, look at the first cut digit, and stick. */
  method CutDown(neg: bool, buf: string, k: nat, mode: Mode) returns (r: Parsed)
    requires AllDigits(buf) && buf != "" && buf[0] != '0' && k > 0
    ensures r == Quantize(neg, NatOf(buf), 0 - k, mode)
  {
    hide HalfEvenQuotient;
    var keepLen := |buf| - k;
    var kept, first, sticky := "", '0', true;
    if keepLen >= 0 {
      kept := buf[..keepLen];
      first := buf[keepLen];
      sticky := AnyNonzeroDigit(buf[keepLen + 1..]);
      KeepDigits(buf, keepLen);
    } else {
      sticky := AnyNonzeroDigit(buf);
      assert buf[0] != '0';
      DropDigits(buf, k);
    }
    if mode == Exact && (first != '0' || sticky) {
      return Inexact;
    }
    var m := ParseMagnitude(kept);
    if m.None? {
      QuotientAtLeast(NatOf(buf), Pow10(k));
      return OutOfRange;
    }
    var mag: nat := m.value;
    if mode == HalfEven {
      var roundUp := first > '5' || (first == '5' && (sticky || mag % 2 == 1));
      if roundUp {
        mag := mag + 1;
      }
    }
    r := SignedUnits(neg, mag);
  }

  method AnyNonzeroDigit(b: string) returns (r: bool)
    ensures r == AnyNonzero(b)
  {
    for i := 0 to |b|
      invariant forall j :: 0 <= j < i ==> b[j] == '0'
    {
      if b[i] != '0' {
        return true;
      }
    }
    return false;
  }

  lemma QuotientAtLeast(d: nat, p: nat)
    requires p > 0
    ensures HalfEvenQuotient(d, p) >= d / p
  {
  }

  /** The code's round-up test on the cut digits is the arithmetic one. */
  lemma KeepDigits(buf: string, keep: nat)
    requires AllDigits(buf) && keep < |buf|
    ensures var kept, first, sticky, p := buf[..keep], buf[keep], AnyNonzero(buf[keep + 1..]), Pow10(|buf| - keep);
            && p > 0
            && NatOf(buf) / p == NatOf(kept)
            && (NatOf(buf) % p != 0 <==> first != '0' || sticky)
            && HalfEvenQuotient(NatOf(buf), p) ==
               NatOf(kept) + if first > '5' || (first == '5' && (sticky || NatOf(kept) % 2 == 1)) then 1 else 0
  {
    hide NatOf, Pow10, AnyNonzero;
    var kept, tail := buf[..keep], buf[keep..];
    assert buf == kept + tail;
    assert tail[1..] == buf[keep + 1..];
    CutDivides(kept, tail);
    StickyRule(tail);
  }

  /** A value below a tenth of a unit rounds to zero and is never exact. */
  lemma DropDigits(buf: string, k: nat)
    requires AllDigits(buf) && buf != "" && buf[0] != '0' && k > |buf|
    ensures var p := Pow10(k);
            && p > 0 && NatOf(buf) / p == 0 && NatOf(buf) % p != 0
            && HalfEvenQuotient(NatOf(buf), p) == 0
    ensures AnyNonzero(buf)
  {
    NatOfBound(buf);
    Pow10Grows(|buf|, k - 1);
    NonzeroIff(buf);
    QuotientOf(0, NatOf(buf), Pow10(k));
  }

  method QuantizeDigits(neg: bool, buf: string, shift: int, mode: Mode) returns (r: Parsed)
    requires AllDigits(buf) && (buf != "" ==> buf[0] != '0')
    ensures r == Quantize(neg, NatOf(buf), shift, mode)
  {
    if buf == "" {
      QuantizeZero(neg, shift, mode);
      return Units(0);
    }
    if shift >= 0 {
      var m := ParseMagnitude(buf);
      NonzeroIff(buf);
      if m.None? {
        ScaledGrows(NatOf(buf), 0, shift);
        return OutOfRange;
      }
      var scaled := ScaleUp(m.value, shift);
      if scaled.None? {
        return OutOfRange;
      }
      r := SignedUnits(neg, scaled.value);
    } else {
      r := CutDown(neg, buf, 0 - shift, mode);
    }
  }

  lemma QuantizeZero(neg: bool, shift: int, mode: Mode)
    ensures Quantize(neg, 0, shift, mode) == Units(0)
  {
  }

  // ---- scanning the mantissa and the exponent ----

  function StripZeros(s: string): string {
    if s != "" && s[0] == '0' then StripZeros(s[1..]) else s
  }

  lemma {:induction false} StripAppend(s: string, c: char)
    ensures StripZeros(s + [c]) ==
            if StripZeros(s) == "" && c == '0' then "" else StripZeros(s) + [c]
  {
    if s == "" {
      assert s + [c] == [c] && [c][1..] == "";
    } else {
      assert (s + [c])[1..] == s[1..] + [c];
      if s[0] == '0' { StripAppend(s[1..], c); }
    }
  }

  lemma {:induction false} StripKeepsValue(s: string)
    requires AllDigits(s)
    ensures AllDigits(StripZeros(s)) && NatOf(StripZeros(s)) == NatOf(s)
    ensures StripZeros(s) != "" ==> StripZeros(s)[0] != '0'
  {
    if s != "" && s[0] == '0' {
      LeadingDigit(s);
      assert 0 * Pow10(|s| - 1) == 0;
      StripKeepsValue(s[1..]);
    }
  }

  lemma MantissaScanned(body: string, ip: string, dot: bool, fp: string, rest: string)
    requires AllDigits(ip) && AllDigits(fp) && (!dot ==> fp == "")
    requires body == ip + ((if dot then "." else "") + (fp + rest))
    requires rest != "" ==> !IsDigit(rest[0]) && (!dot ==> rest[0] != '.')
    ensures ScanMantissa(body) == Mantissa(ip, dot, fp, rest)
  {
    hide DigitRun;
    var tail := (if dot then "." else "") + (fp + rest);
    assert fp + rest == if dot then tail[1..] else tail;
    DigitRunOf(ip, tail);
    assert body[..|ip|] == ip && body[|ip|..] == tail;
    if dot {
      DigitRunOf(fp, rest);
      assert (fp + rest)[..|fp|] == fp && (fp + rest)[|fp|..] == rest;
    } else {
      assert fp + rest == rest;
    }
  }

  /** `t` is what has been read of a mantissa. */
  predicate Reading(t: string, ip: string, dot: bool, fp: string) {
    && AllDigits(ip) && AllDigits(fp) && (!dot ==> fp == "")
    && t == ip + ((if dot then "." else "") + fp)
  }

  lemma ReadDigit(t: string, ip: string, dot: bool, fp: string, c: char)
    requires Reading(t, ip, dot, fp) && IsDigit(c)
    ensures dot ==> Reading(t + [c], ip, dot, fp + [c]) && ip + (fp + [c]) == ip + fp + [c]
    ensures !dot ==> Reading(t + [c], ip + [c], dot, fp) && ip + [c] + fp == ip + fp + [c]
  {
  }

  lemma ReadPoint(t: string, ip: string, fp: string)
    requires Reading(t, ip, false, fp)
    ensures Reading(t + ['.'], ip, true, fp)
  {
  }

  datatype MantissaResult = TwoPoints | MantissaRead(end: nat, buf: string, fracLen: nat, seenDigit: bool)

  /** The mantissa loop, from just after the sign. */
  method ReadMantissa(s: string, start: nat) returns (r: MantissaResult)
    requires start <= |s|
    ensures var m := ScanMantissa(s[start..]);
            if r.TwoPoints? then m.rest != "" && m.rest[0] == '.'
            else
              && r.end <= |s| && s[r.end..] == m.rest && AllDigits(m.ip + m.fp)
              && r.buf == StripZeros(m.ip + m.fp) && r.fracLen == |m.fp|
              && (r.seenDigit <==> m.ip + m.fp != "")
  {
    hide StripZeros, ScanMantissa, DigitRun, IsDigit, AllDigits;
    var i, buf, fracLen := start, "", 0;
    var seenDigit, seenDot := false, false;
    ghost var ip, fp := "", "";
    ReadNothing(s[start..start]);
    while i < |s|
      invariant start <= i <= |s| && fracLen == |fp|
      invariant Reading(s[start..i], ip, seenDot, fp)
      invariant buf == StripZeros(ip + fp)
      invariant seenDigit <==> ip + fp != ""
    {
      hide Reading;
      var c := s[i];
      assert s[start..i + 1] == s[start..i] + [c];
      if IsDigit(c) {
        seenDigit := true;
        StripAppend(ip + fp, c);
        ReadDigit(s[start..i], ip, seenDot, fp, c);
        if seenDot {
          fracLen := fracLen + 1;
          fp := fp + [c];
        } else {
          ip := ip + [c];
        }
        if c != '0' || buf != "" {
          buf := buf + [c];
        }
      } else if c == '.' {
        if seenDot {
          ReadStops(s, start, i, ip, true, fp);
          return TwoPoints;
        }
        ReadPoint(s[start..i], ip, fp);
        seenDot := true;
      } else {
        break;
      }
      i := i + 1;
    }
    ReadStops(s, start, i, ip, seenDot, fp);
    return MantissaRead(i, buf, fracLen, seenDigit);
  }

  lemma ReadNothing(t: string)
    requires t == ""
    ensures Reading(t, "", false, "") && StripZeros("" + "") == ""
  {
  }

  lemma ReadStops(s: string, start: nat, i: nat, ip: string, dot: bool, fp: string)
    requires start <= i <= |s| && Reading(s[start..i], ip, dot, fp)
    requires i < |s| ==> !IsDigit(s[i]) && (!dot ==> s[i] != '.')
    ensures ScanMantissa(s[start..]) == Mantissa(ip, dot, fp, s[i..]) && AllDigits(ip + fp)
  {
    assert s[start..] == s[start..i] + s[i..];
    assert s[start..] == ip + ((if dot then "." else "") + (fp + s[i..]));
    MantissaScanned(s[start..], ip, dot, fp, s[i..]);
  }

  lemma ExponentScanned(t: string, sign: string, digits: string, rest: string)
    requires t != "" && (t[0] == 'e' || t[0] == 'E') && t[1..] == sign + (digits + rest)
    requires IsSign(sign) && AllDigits(digits) && (rest != "" ==> !IsDigit(rest[0]))
    requires sign == "" && digits + rest != "" ==> (digits + rest)[0] != '+' && (digits + rest)[0] != '-'
    ensures ScanExponent(t) ==
            if digits == "" || rest != "" then None else Some(Exponent(t[0], sign, digits))
  {
    hide DigitRun;
    var body, tail := t[1..], digits + rest;
    assert SignLength(body) == |sign| by {
      if sign == "" { assert body == tail; }
    }
    assert body[|sign|..] == tail && body[..|sign|] == sign;
    DigitRunOf(digits, rest);
    if rest == "" { assert tail == digits; }
  }

  /** The exponent loop; None when the rest of the string is not an exponent. */
  method ReadExponent(s: string, start: nat) returns (r: Option<int>)
    requires start <= |s|
    ensures match ScanExponent(s[start..])
            case None => r == None
            case Some(e) => ExponentOk(e) && r == Some(ClampedExponent(e))
  {
    hide ScanExponent, AllDigits, IsDigit, ClampedNat, DigitValue;
    NoExponentPart(s[start..]);
    if start == |s| {
      return Some(0);
    }
    if s[start] != 'e' && s[start] != 'E' {
      return None;
    }
    var i, eneg := start + 1, false;
    if i < |s| && (s[i] == '+' || s[i] == '-') {
      eneg := s[i] == '-';
      i := i + 1;
    }
    var first := i;
    var exp: nat;
    i, exp := ReadClamped(s, first);
    ExponentPieces(s, start, first, i);
    if i == first || i != |s| {
      return None;
    }
    return Some(if eneg then 0 - exp else exp);
  }

  lemma NoExponentPart(t: string)
    ensures t == "" ==> ScanExponent(t) == Some(NoExponent)
    ensures t != "" && t[0] != 'e' && t[0] != 'E' ==> ScanExponent(t) == None
  {
  }

  /** The sign, the digits and what follows them, cut out of the whole string. */
  lemma ExponentPieces(s: string, start: nat, first: nat, end: nat)
    requires start < first <= end <= |s| && (s[start] == 'e' || s[start] == 'E')
    requires first == start + 1 || (first == start + 2 && (s[start + 1] == '+' || s[start + 1] == '-'))
    requires first == start + 1 && first < |s| ==> s[first] != '+' && s[first] != '-'
    requires AllDigits(s[first..end]) && (end < |s| ==> !IsDigit(s[end]))
    ensures ScanExponent(s[start..]) ==
            if first == end || end != |s| then None
            else Some(Exponent(s[start], s[start + 1..first], s[first..end]))
    ensures IsSign(s[start + 1..first]) && (s[start + 1..first] == "-" <==> first == start + 2 && s[start + 1] == '-')
  {
    hide ScanExponent, IsDigit;
    var sign, digits, rest := s[start + 1..first], s[first..end], s[end..];
    assert s[start..][1..] == sign + (digits + rest);
    assert digits + rest == s[first..];
    ExponentScanned(s[start..], sign, digits, rest);
  }

  lemma NothingClamped(s: string)
    requires s == ""
    ensures AllDigits(s) && ClampedNat(s) == 0
  {
  }

  lemma ClampedStep(s: string, c: char)
    requires AllDigits(s) && IsDigit(c)
    ensures AllDigits(s + [c])
    ensures ClampedNat(s + [c]) ==
            if ClampedNat(s) < 1_000_000_000 then ClampedNat(s) * 10 + DigitValue(c) else ClampedNat(s)
  {
    assert (s + [c])[..|s|] == s;
  }

  method ReadClamped(s: string, first: nat) returns (end: nat, exp: nat)
    requires first <= |s|
    ensures first <= end <= |s| && AllDigits(s[first..end]) && exp == ClampedNat(s[first..end])
    ensures end < |s| ==> !IsDigit(s[end])
  {
    hide ClampedNat, AllDigits, IsDigit;
    NothingClamped(s[first..first]);
    end, exp := first, 0;
    while end < |s| && IsDigit(s[end])
      invariant first <= end <= |s| && AllDigits(s[first..end]) && exp == ClampedNat(s[first..end])
    {
      assert s[first..end + 1] == s[first..end] + [s[end]];
      ClampedStep(s[first..end], s[end]);
      if exp < 1_000_000_000 {
        exp := exp * 10 + DigitValue(s[end]);
      }
      end := end + 1;
    }
  }

  /** parseFixed4. */
  method ParseFixed4(s: string, mode: Mode) returns (r: Parsed)
    ensures r == Parse(s, mode)
  {
    hide ScanMantissa, ScanExponent, Quantize, Parse;
    if s == "" {
      EmptyIsInvalid(mode);
      return InvalidNumber;
    }
    var i, neg := 0, false;
    if s[0] == '+' || s[0] == '-' {
      neg := s[0] == '-';
      i := 1;
    }
    ParseParts(s, mode);
    var m := ReadMantissa(s, i);
    if m.TwoPoints? {
      NotAnExponent(ScanMantissa(s[i..]).rest);
      return InvalidNumber;
    }
    if !m.seenDigit {
      return InvalidNumber;
    }
    var exp := ReadExponent(s, m.end);
    if exp.None? {
      return InvalidNumber;
    }
    StripKeepsValue(ScanMantissa(s[i..]).ip + ScanMantissa(s[i..]).fp);
    assert neg <==> s[..i] == "-";
    r := QuantizeDigits(neg, m.buf, exp.value - m.fracLen + 4, mode);
  }

  lemma EmptyIsInvalid(mode: Mode)
    ensures Parse("", mode) == InvalidNumber
  {
  }

  /** Parse in terms of the scanned parts. */
  lemma ParseParts(s: string, mode: Mode)
    ensures var n := SignLength(s);
            var m := ScanMantissa(s[n..]);
            var e := ScanExponent(m.rest);
            if m.ip + m.fp == "" || e.None? then Parse(s, mode) == InvalidNumber
            else
              && AllDigits(m.ip + m.fp) && ExponentOk(e.value)
              && Parse(s, mode) ==
                 Quantize(s[..n] == "-", NatOf(m.ip + m.fp), ClampedExponent(e.value) - |m.fp| + 4, mode)
  {
    hide ScanMantissa, ScanExponent, Quantize, Render;
    if Scan(s).Some? { ScanIsSound(s); }
  }

  lemma NotAnExponent(rest: string)
    requires rest != "" && rest[0] == '.'
    ensures ScanExponent(rest) == None
  {
  }
}
