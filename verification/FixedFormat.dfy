/** The printers of internal/domain/fixed.go and the JSON form of internal/domain/money.go,
    with their round trips through the parser. */
module FixedFormat {
  import opened Int64
  import opened Text
  import opened Rounding
  import opened Digits
  import opened Literals
  import opened FixedParse

  function SignText(neg: bool): string {
    if neg then "-" else ""
  }

  function TrimZeros(s: string): (t: string)
    ensures |t| <= |s| && t == s[..|t|]
    ensures t != "" ==> t[|t| - 1] != '0'
  {
    if s != "" && s[|s| - 1] == '0' then TrimZeros(s[..|s| - 1]) else s
  }

  /** The canonical literal: no leading zeros, no trailing zeros, no point when whole. */
  function Canonical(v: int64): (l: Literal)
    ensures Grammatical(l) && l.exp == NoExponent
    ensures l.fp != "" ==> l.fp[|l.fp| - 1] != '0'
    ensures l.dot <==> l.fp != ""
  {
    var fp := TrimZeros(Padded(Abs(v) % 10_000, 4));
    Literal(SignText(v < 0), DecimalOf(Abs(v) / 10_000), fp != "", fp, NoExponent)
  }

  function Format(v: int64): string {
    Render(Canonical(v))
  }

  lemma {:induction false} TrimKeepsValue(s: string)
    requires AllDigits(s)
    ensures NatOf(s) == NatOf(TrimZeros(s)) * Pow10(|s| - |TrimZeros(s)|)
  {
    if s != "" && s[|s| - 1] == '0' {
      var init := s[..|s| - 1];
      TrimKeepsValue(init);
      ScaleByTen(NatOf(TrimZeros(init)), Pow10(|init| - |TrimZeros(init)|));
    }
  }

  /** Printing then parsing gives the value back, for every int64 including MinInt64. */
  lemma FormatRoundTrips(v: int64, mode: Mode)
    ensures Parse(Format(v), mode) == Units(v)
  {
    hide NatOf, Pow10, DecimalOf, Padded, TrimZeros, Scan;
    var l, u := Canonical(v), Abs(v);
    ScanInvertsRender(l);
    CanonicalValue(v);
  }

  lemma CanonicalValue(v: int64)
    ensures var l := Canonical(v);
            |l.fp| <= 4 && Coefficient(l) * Pow10(4 - |l.fp|) == Abs(v)
  {
    hide DecimalOf, Padded, TrimZeros, NatOf;
    var u := Abs(v);
    var ip, pad := DecimalOf(u / 10_000), Padded(u % 10_000, 4);
    var fp := TrimZeros(pad);
    assert Pow10(4) == 10_000;
    PaddedValue(u % 10_000, 4);
    TrimKeepsValue(pad);
    NatOfAppend(ip, fp);
    Pow10Add(|fp|, 4 - |fp|);
    Distribute(NatOf(ip), Pow10(|fp|), NatOf(fp), Pow10(4 - |fp|));
  }

  lemma Distribute(a: int, p: int, b: int, q: int)
    ensures (a * p + b) * q == a * (p * q) + b * q
  {
  }

  /** The text of formatFixed4, for every value: a minus sign exactly below zero, no superfluous
      zero in front or behind, a point only before digits, and the digits of |v| at four places. */
  lemma FormatShape(v: int64) returns (sign: string, ip: string, fp: string)
    ensures Format(v) == sign + ip + (if fp == "" then "" else "." + fp)
    ensures sign == if v < 0 then "-" else ""
    ensures Plain(ip) && AllDigits(fp) && |fp| <= 4 && (fp != "" ==> fp[|fp| - 1] != '0')
    ensures AllDigits(ip + fp) && NatOf(ip + fp) * Pow10(4 - |fp|) == Abs(v)
  {
    hide DecimalOf, Padded, TrimZeros, NatOf, Pow10, Plain;
    var l := Canonical(v);
    CanonicalValue(v);
    DecimalIsPlain(Abs(v) / 10_000);
    sign, ip, fp := l.sign, l.ip, l.fp;
    assert Format(v) == sign + ip + (if fp == "" then "" else "." + fp);
  }

  // ---- formatFixed4 ----

  /** Write the digits of n into frac from the right: the filling loop of formatFixed4. */
  method FillDigits(n: nat, frac: array<char>)
    modifies frac
    ensures frac[..] == Padded(n, frac.Length)
  {
    var rest, k := n, frac.Length;
    while k > 0
      invariant 0 <= k <= frac.Length
      invariant Padded(n, frac.Length) == Padded(rest, k) + frac[k..]
    {
      k := k - 1;
      frac[k] := DigitChar(rest % 10);
      rest := rest / 10;
      assert frac[k..] == [frac[k]] + frac[k + 1..];
    }
  }

  /** The trimming loop of formatFixed4. */
  method TrimBuffer(frac: array<char>) returns (end: nat)
    ensures end <= frac.Length && frac[..end] == TrimZeros(frac[..])
  {
    end := frac.Length;
    assert frac[..end] == frac[..];
    while end > 0 && frac[end - 1] == '0'
      invariant end <= frac.Length
      invariant TrimZeros(frac[..]) == TrimZeros(frac[..end])
    {
      assert frac[..end][..end - 1] == frac[..end - 1];
      end := end - 1;
    }
  }

  method FormatFixed4(v: int64) returns (s: string)
    ensures s == Format(v)
  {
    hide DecimalOf, Padded, TrimZeros, Format;
    var neg := v < 0;
    var u: nat := if neg then 0 - (v + 1) + 1 else v;
    var ip, fp := u / 10_000, u % 10_000;
    s := SignText(neg) + DecimalOf(ip);
    PaddedZero(fp);
    CanonicalText(v);
    if fp != 0 {
      var frac := new char[4];
      FillDigits(fp, frac);
      var end := TrimBuffer(frac);
      s := s + "." + frac[..end];
    }
  }

  /** The canonical literal spelled out. */
  lemma CanonicalText(v: int64)
    ensures var u := Abs(v);
            var fp := TrimZeros(Padded(u % 10_000, 4));
            Format(v) == SignText(v < 0) + DecimalOf(u / 10_000) + if fp == "" then "" else "." + fp
  {
  }

  lemma PaddedZero(n: nat)
    requires n < 10_000
    ensures TrimZeros(Padded(n, 4)) == "" <==> n == 0
  {
    assert Pow10(4) == 10_000;
    PaddedValue(n, 4);
    TrimKeepsValue(Padded(n, 4));
    TrimToEmpty(Padded(n, 4));
  }

  lemma {:induction false} TrimToEmpty(s: string)
    requires AllDigits(s)
    ensures TrimZeros(s) == "" <==> NatOf(s) == 0
  {
    if s != "" {
      TrimToEmpty(s[..|s| - 1]);
    }
  }

  // ---- formatFixedDP and formatFixedExact ----

  /** u / 10^places with all its places, then `pad` zeros. */
  function FixedPlaces(neg: bool, u: nat, places: nat, pad: nat): (l: Literal)
    ensures Grammatical(l)
  {
    PlainLiteral(neg, DecimalOf(Whole(u, Pow10(places))), Padded(Part(u, Pow10(places)), places) + Zeros(pad))
  }

  function Whole(u: nat, p: nat): nat
    requires p > 0
  {
    u / p
  }

  function Part(u: nat, p: nat): nat
    requires p > 0
  {
    u % p
  }

  function PlainLiteral(neg: bool, ip: string, fp: string): (l: Literal)
    requires AllDigits(ip) && ip != "" && AllDigits(fp)
    ensures Grammatical(l)
  {
    Literal(SignText(neg), ip, fp != "", fp, NoExponent)
  }

  /** The scaled integer formatFixedDP prints for dp < 4. */
  function Scaled(v: int64, dp: nat): int
    requires dp < 4
  {
    DomainDiv(v, PowerOfTen(4 - dp))
  }

  /** pow10tab. */
  function PowerOfTen(n: nat): int64
    requires n <= 18
  {
    PowersFit(n);
    Pow10(n)
  }

  lemma PowersFit(n: nat)
    requires n <= 18
    ensures Fits(Pow10(n))
  {
    Pow10Grows(n, 18);
    assert Pow10(3) == 1_000 && Pow10(5) == 100_000;
    Pow10Add(5, 5);
    Pow10Add(10, 5);
    Pow10Add(15, 3);
  }

  function FormatDP(v: int64, dp: int): string {
    var d := if dp < 0 then 0 else dp;
    if d >= 4 then Render(FixedPlaces(v < 0, Abs(v), 4, d - 4))
    else Render(FixedPlaces(Scaled(v, d) < 0, Abs(Scaled(v, d)), d, 0))
  }

  lemma PlacesValue(neg: bool, u: nat, places: nat, pad: nat)
    ensures Coefficient(FixedPlaces(neg, u, places, pad)) == u * Pow10(pad)
  {
    hide DecimalOf, Padded, NatOf, Zeros, Pow10;
    var p := Pow10(places);
    var ip, fp := DecimalOf(u / p), Padded(u % p, places);
    PaddedValue(u % p, places);
    NatOfAppend(ip, fp);
    DivModParts(u, p);
    NatOfAppend(ip + fp, Zeros(pad));
    NatOfZeros(pad);
    assert ip + (fp + Zeros(pad)) == ip + fp + Zeros(pad);
  }

  lemma PlacesParse(neg: bool, u: nat, places: nat, pad: nat, mode: Mode)
    ensures Parse(Render(FixedPlaces(neg, u, places, pad)), mode) ==
            Quantize(neg, u * Pow10(pad), 4 - places - pad, mode)
  {
    hide Pow10, DecimalOf, Padded, Zeros, NatOf, Quantize, Scan;
    ScanInvertsRender(FixedPlaces(neg, u, places, pad));
    PlacesValue(neg, u, places, pad);
  }

  /** With four or more places nothing is lost. */
  lemma FormatDPRoundTrips(v: int64, dp: int, mode: Mode)
    requires dp >= 4
    ensures Parse(FormatDP(v, dp), mode) == Units(v)
  {
    hide Parse, Pow10;
    var u, pad := Abs(v), dp - 4;
    PlacesParse(v < 0, u, 4, pad, mode);
    if pad == 0 {
      NoShift();
      assert u * 1 == u;
    } else {
      QuotientOf(u, 0, Pow10(pad));
    }
  }

  lemma NoShift()
    ensures Pow10(0) == 1
  {
  }

  /** With fewer places the text denotes the half-even nearest multiple of 10^(4-dp), and
      parses back to it exactly when that is in range. */
  lemma FormatDPRounds(v: int64, dp: int, mode: Mode)
    requires dp < 4
    ensures var d := if dp < 0 then 0 else dp;
            var unit := PowerOfTen(4 - d);
            && NearestEven(v, unit, Scaled(v, d))
            && Parse(FormatDP(v, dp), mode) ==
               (if Fits(Scaled(v, d) * unit) then Units(Scaled(v, d) * unit) else OutOfRange)
  {
    hide Parse, DomainDiv, Pow10, NearestEven, FixedPlaces, Render, Quantize;
    var d := if dp < 0 then 0 else dp;
    var unit := PowerOfTen(4 - d);
    EvenPower(4 - d);
    DomainDivExact(v, unit);
    var q := Scaled(v, d);
    PlacesParse(q < 0, Abs(q), d, 0, mode);
    QuantizeUp(Abs(q), d, q < 0, mode);
    MulNonneg(Abs(q), unit);
    RangedSigned(q, unit);
  }

  lemma QuantizeUp(u: nat, d: nat, neg: bool, mode: Mode)
    requires d < 4
    ensures Quantize(neg, u * Pow10(0), 4 - d - 0, mode) == Ranged(neg, u * Pow10(4 - d))
  {
  }

  lemma EvenPower(n: nat)
    requires n > 0
    ensures Pow10(n) % 2 == 0
  {
  }

  lemma RangedSigned(q: int, unit: int)
    requires unit > 0 && Abs(q) * unit >= 0
    ensures Ranged(q < 0, Abs(q) * unit) ==
            if Fits(q * unit) then Units(q * unit) else OutOfRange
  {
  }

  /** The text of formatFixedDP, for every value and every dp: exactly max(dp, 0) digits after the
      point and a point exactly before them, no superfluous zero in front, a minus sign exactly
      when the rounded value is below zero, and the digits of that value. */
  lemma FormatDPShape(v: int64, dp: int) returns (sign: string, ip: string, fp: string, q: int)
    ensures var d := if dp < 0 then 0 else dp;
            && FormatDP(v, dp) == sign + ip + (if d > 0 then "." + fp else "")
            && |fp| == d && AllDigits(fp) && Plain(ip)
            && sign == (if q < 0 then "-" else "")
            && (if d < 4 then NearestEven(v, Pow10(4 - d), q) else q == v)
            && AllDigits(ip + fp)
            && NatOf(ip + fp) == Abs(q) * Pow10(if d > 4 then d - 4 else 0)
  {
    hide DecimalOf, Padded, NatOf, Pow10, Plain, NearestEven, DomainDiv, Zeros, FixedPlaces, Render;
    var d := if dp < 0 then 0 else dp;
    if d >= 4 {
      q := v;
      sign, ip, fp := PlacesShape(v < 0, Abs(v), 4, d - 4);
    } else {
      EvenPower(4 - d);
      DomainDivExact(v, PowerOfTen(4 - d));
      q := Scaled(v, d);
      sign, ip, fp := PlacesShape(q < 0, Abs(q), d, 0);
    }
  }

  lemma PlacesShape(neg: bool, u: nat, places: nat, pad: nat) returns (sign: string, ip: string, fp: string)
    ensures Render(FixedPlaces(neg, u, places, pad)) == sign + ip + (if places + pad > 0 then "." + fp else "")
    ensures |fp| == places + pad && AllDigits(fp) && Plain(ip) && sign == (if neg then "-" else "")
    ensures AllDigits(ip + fp) && NatOf(ip + fp) == u * Pow10(pad)
  {
    hide DecimalOf, Padded, NatOf, Pow10, Plain;
    var l := FixedPlaces(neg, u, places, pad);
    PlacesValue(neg, u, places, pad);
    DecimalIsPlain(Whole(u, Pow10(places)));
    ZerosLength(pad);
    sign, ip, fp := l.sign, l.ip, l.fp;
    assert Render(l) == sign + ip + (if places + pad > 0 then "." + fp else "");
  }

  lemma ZerosLength(n: nat)
    ensures |Zeros(n)| == n
  {
  }

  /** The digit loop of formatFixedExact and formatFixedDP, most significant first. */
  method AppendPlaces(n: nat, places: nat) returns (s: string)
    requires places <= 18
    ensures s == Padded(n, places)
  {
    hide Pow10, Padded, Whole;
    NothingPadded(Whole(n, Pow10(places)));
    s := "";
    var k := places;
    while k > 0
      invariant 0 <= k <= places
      invariant s == Padded(Whole(n, Pow10(k)), places - k)
    {
      k := k - 1;
      NextPlace(n, k);
      PaddedStep(Whole(n, Pow10(k)), places - k - 1);
      s := s + [DigitChar(Whole(n, PowerOfTen(k)) % 10)];
    }
    WholeOfOne(n);
  }

  lemma WholeOfOne(n: nat)
    ensures Whole(n, Pow10(0)) == n
  {
  }

  lemma NothingPadded(n: nat)
    ensures Padded(n, 0) == ""
  {
  }

  lemma PaddedStep(m: nat, w: nat)
    ensures Padded(m, w + 1) == Padded(m / 10, w) + [DigitChar(m % 10)]
  {
  }

  lemma NextPlace(n: nat, k: nat)
    ensures Whole(n, Pow10(k)) / 10 == Whole(n, Pow10(k + 1))
  {
    DivTwice(n, Pow10(k));
  }

  lemma DivTwice(n: nat, p: nat)
    requires p > 0
    ensures n / p / 10 == n / (10 * p)
  {
    var q := n / p;
    DivModParts(n, p);
    DivModParts(q, 10);
    var a, r, s := q / 10, q % 10, n % p;
    assert n == (a * 10 + r) * p + s;
    assert (a * 10 + r) * p + s == a * (10 * p) + (r * p + s);
    MulNonneg(r, p);
    assert r * p <= 9 * p by { assert 9 * p == r * p + (9 - r) * p; MulNonneg(9 - r, p); }
    QuotientOf(a, r * p + s, 10 * p);
  }

  method FormatFixedDP(v: int64, dp: int) returns (s: string)
    ensures s == FormatDP(v, dp)
  {
    var d: nat := if dp < 0 then 0 else dp;
    if d >= 4 {
      hide FormatDP, Zeros;
      s := FormatFixedExact(v);
      ghost var exact := s;
      NoZeros();
      for k := 4 to d
        invariant s == exact + Zeros(k - 4)
      {
        ZerosStep(k - 4);
        s := s + "0";
      }
      ExactPlaces(v, d - 4);
      PaddedText(v, d);
    } else {
      s := FormatRounded(v, d);
    }
  }

  method FormatRounded(v: int64, dp: nat) returns (s: string)
    requires dp < 4
    ensures s == FormatDP(v, dp)
  {
    hide DomainDiv, Pow10, Render, FixedPlaces;
    var scaled := Scaled(v, dp);
    var u: nat := if scaled < 0 then 0 - (scaled + 1) + 1 else scaled;
    s := SpellPlaces(scaled < 0, u, dp);
  }

  /** Sign, integer part, point, digits: the common tail of both printers. */
  method SpellPlaces(neg: bool, u: nat, places: nat) returns (s: string)
    requires places <= 18
    ensures s == Render(FixedPlaces(neg, u, places, 0))
  {
    hide DecimalOf, Padded, Pow10, Render, FixedPlaces;
    PlacesText(neg, u, places);
    var div := PowerOfTen(places);
    s := SignText(neg) + DecimalOf(u / div);
    if places > 0 {
      var digits := AppendPlaces(u % div, places);
      s := s + "." + digits;
    }
  }

  lemma PaddedText(v: int64, dp: int)
    requires dp >= 4
    ensures FormatDP(v, dp) == Render(FixedPlaces(v < 0, Abs(v), 4, dp - 4))
  {
  }

  lemma ZerosStep(n: nat)
    ensures Zeros(n) + "0" == Zeros(n + 1)
  {
  }

  method FormatFixedExact(v: int64) returns (s: string)
    ensures s == FormatDP(v, 4)
  {
    hide Render, FixedPlaces;
    var u: nat := if v < 0 then 0 - (v + 1) + 1 else v;
    s := SpellPlaces(v < 0, u, 4);
  }

  /** A fixed-places literal spelled out. */
  lemma PlacesText(neg: bool, u: nat, places: nat)
    ensures Render(FixedPlaces(neg, u, places, 0)) ==
            SignText(neg) + DecimalOf(u / Pow10(places)) +
            if places > 0 then "." + Padded(u % Pow10(places), places) else ""
  {
  }

  lemma ExactPlaces(v: int64, pad: nat)
    ensures Render(FixedPlaces(v < 0, Abs(v), 4, pad)) == FormatDP(v, 4) + Zeros(pad)
  {
    hide DecimalOf, Padded, Pow10, Zeros;
    var l, m := FixedPlaces(v < 0, Abs(v), 4, 0), FixedPlaces(v < 0, Abs(v), 4, pad);
    NoZeros();
    assert l.fp + "" == l.fp;
  }

  lemma NoZeros()
    ensures Zeros(0) == ""
  {
  }

  // ---- JSON ----

  datatype JsonResult = Unchanged | Changed(value: int64) | Failed(error: Parsed)

  function Marshal(v: int64): string {
    "\"" + Format(v) + "\""
  }

  /** unmarshalFixedJSON: null, a quoted literal without escapes, or a bare number token. */
  function Unmarshal(b: string): JsonResult {
    var tok := TrimSpace(b);
    if tok == "null" then Unchanged
    else if |tok| >= 2 && tok[0] == '"' && tok[|tok| - 1] == '"' then
      var inner := tok[1..|tok| - 1];
      if '\\' in inner then Failed(InvalidNumber) else FromParsed(Parse(inner, Exact))
    else FromParsed(Parse(tok, Exact))
  }

  function FromParsed(p: Parsed): JsonResult {
    if p.Units? then Changed(p.value) else Failed(p)
  }

  /** What decoding does with every token: null leaves the value alone; a quoted token stands for
      what is between the quotes, and is refused if that has an escape; a bare token stands for
      itself; either is taken only if it parses exactly. */
  lemma UnmarshalMeans(b: string)
    ensures var tok := TrimSpace(b);
            var quoted := |tok| >= 2 && tok[0] == '"' && tok[|tok| - 1] == '"';
            && (Unmarshal(b) == Unchanged <==> tok == "null")
            && (forall v :: Unmarshal(b) == Changed(v) <==>
                  && tok != "null" && (quoted ==> '\\' !in tok)
                  && Parse(if quoted then tok[1..|tok| - 1] else tok, Exact) == Units(v))
            && (forall e :: Unmarshal(b) == Failed(e) <==>
                  && tok != "null"
                  && if quoted && '\\' in tok then e == InvalidNumber
                     else !e.Units? && Parse(if quoted then tok[1..|tok| - 1] else tok, Exact) == e)
  {
    hide Parse, TrimSpace;
    var tok := TrimSpace(b);
    if |tok| >= 2 && tok[0] == '"' && tok[|tok| - 1] == '"' {
      assert tok == [tok[0]] + tok[1..|tok| - 1] + [tok[|tok| - 1]];
    }
  }

  lemma FormatHasNoEscapes(v: int64)
    ensures '\\' !in Format(v)
  {
  }

  /** JSON round trip, with any white space around the token; so does the bare number. */
  lemma JsonRoundTrips(v: int64, a: string, b: string)
    requires Blank(a) && Blank(b)
    ensures Marshal(v) == ['"'] + Format(v) + ['"']
    ensures Unmarshal(a + Marshal(v) + b) == Changed(v)
    ensures Unmarshal(a + Format(v) + b) == Changed(v)
  {
    hide Parse, Format;
    FormatRoundTrips(v, Exact);
    FormatHasNoEscapes(v);
    FormatEnds(v);
    var t := Marshal(v);
    assert t[1..|t| - 1] == Format(v);
    TrimBoth(a, t, b);
    TrimBoth(a, Format(v), b);
  }

  lemma FormatEnds(v: int64)
    ensures var s := Format(v);
            s != "" && (IsDigit(s[0]) || s[0] == '-') && IsDigit(s[|s| - 1])
  {
  }
}
