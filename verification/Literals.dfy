/** The decimal literals of internal/domain/fixed.go: optional sign, digits with an
    optional point, optional exponent. The grammar, its rendering, and a scanner that
    inverts it. */
module Literals {
  import opened Int64
  import opened Digits

  datatype Exponent = NoExponent | Exponent(marker: char, sign: string, digits: string)

  datatype Literal = Literal(sign: string, ip: string, dot: bool, fp: string, exp: Exponent)

  predicate IsSign(s: string) {
    s == "" || s == "+" || s == "-"
  }

  predicate ExponentOk(e: Exponent) {
    e.Exponent? ==>
      (e.marker == 'e' || e.marker == 'E') && IsSign(e.sign) && AllDigits(e.digits) && e.digits != ""
  }

  predicate Grammatical(l: Literal) {
    && IsSign(l.sign) && AllDigits(l.ip) && AllDigits(l.fp)
    && (!l.dot ==> l.fp == "")
    && l.ip + l.fp != ""
    && ExponentOk(l.exp)
  }

  function RenderExponent(e: Exponent): string {
    match e
    case NoExponent => ""
    case Exponent(m, s, d) => [m] + (s + d)
  }

  function RenderTail(l: Literal): string {
    (if l.dot then "." else "") + (l.fp + RenderExponent(l.exp))
  }

  function Render(l: Literal): string {
    l.sign + (l.ip + RenderTail(l))
  }

  // ---- scanning ----

  /** Length of the longest run of digits at the front. */
  function DigitRun(s: string): (n: nat)
    ensures n <= |s| && AllDigits(s[..n])
    ensures n < |s| ==> !IsDigit(s[n])
  {
    if s == "" || !IsDigit(s[0]) then 0
    else
      var n := DigitRun(s[1..]);
      assert s[..n + 1] == [s[0]] + s[1..][..n];
      n + 1
  }

  function SignLength(s: string): (n: nat)
    ensures n <= |s| && IsSign(s[..n])
  {
    if s != "" && (s[0] == '+' || s[0] == '-') then
      assert s[..1] == [s[0]];
      1
    else 0
  }

  function ScanExponent(s: string): Option<Exponent> {
    if s == "" then Some(NoExponent)
    else if s[0] != 'e' && s[0] != 'E' then None
    else
      var body := s[1..];
      var n := SignLength(body);
      if n == |body| || DigitRun(body[n..]) != |body| - n then None
      else Some(Exponent(s[0], body[..n], body[n..]))
  }

  datatype Mantissa = Mantissa(ip: string, dot: bool, fp: string, rest: string)

  function ScanMantissa(s: string): Mantissa {
    var n := DigitRun(s);
    var r := s[n..];
    if r != "" && r[0] == '.' then
      var k := DigitRun(r[1..]);
      Mantissa(s[..n], true, r[1..][..k], r[1..][k..])
    else Mantissa(s[..n], false, "", r)
  }

  /** The literal a string spells, if any. */
  function Scan(s: string): Option<Literal> {
    var n := SignLength(s);
    var m := ScanMantissa(s[n..]);
    if m.ip + m.fp == "" then None
    else
      match ScanExponent(m.rest)
      case None => None
      case Some(e) => Some(Literal(s[..n], m.ip, m.dot, m.fp, e))
  }

  // ---- the scanner inverts the grammar ----

  lemma {:induction false} DigitRunOf(d: string, rest: string)
    requires AllDigits(d) && (rest != "" ==> !IsDigit(rest[0]))
    ensures DigitRun(d + rest) == |d|
  {
    if d == "" {
      assert d + rest == rest;
    } else {
      assert (d + rest)[1..] == d[1..] + rest;
      DigitRunOf(d[1..], rest);
    }
  }

  lemma SignLengthOf(sign: string, rest: string)
    requires IsSign(sign) && (rest != "" ==> rest[0] != '+' && rest[0] != '-')
    ensures SignLength(sign + rest) == |sign|
    ensures (sign + rest)[..|sign|] == sign && (sign + rest)[|sign|..] == rest
  {
  }

  lemma ScanExponentOf(e: Exponent)
    requires ExponentOk(e)
    ensures ScanExponent(RenderExponent(e)) == Some(e)
  {
  }

  lemma ScanMantissaOf(l: Literal)
    requires Grammatical(l)
    ensures ScanMantissa(l.ip + RenderTail(l)) == Mantissa(l.ip, l.dot, l.fp, RenderExponent(l.exp))
  {
    hide DigitRun;
    var s, tail, e := l.ip + RenderTail(l), RenderTail(l), RenderExponent(l.exp);
    assert e != "" ==> !IsDigit(e[0]) && e[0] != '.';
    if l.dot {
      assert tail[1..] == l.fp + e;
      DigitRunOf(l.fp, e);
      assert (l.fp + e)[..|l.fp|] == l.fp && (l.fp + e)[|l.fp|..] == e;
    } else {
      assert tail == e;
    }
    DigitRunOf(l.ip, tail);
    assert s[..|l.ip|] == l.ip && s[|l.ip|..] == tail;
  }

  /** Every grammatical literal scans back to itself: the grammar is unambiguous. */
  lemma ScanInvertsRender(l: Literal)
    requires Grammatical(l)
    ensures Scan(Render(l)) == Some(l)
  {
    var body := l.ip + RenderTail(l);
    assert body != "" && body[0] != '+' && body[0] != '-' by {
      if l.ip != "" {
        assert body[0] == l.ip[0];
      } else {
        assert l.dot && body[0] == '.';
      }
    }
    SignLengthOf(l.sign, body);
    ScanMantissaOf(l);
    ScanExponentOf(l.exp);
  }

  /** Whatever scans is grammatical and spells exactly the scanned string. */
  lemma ScanIsSound(s: string)
    requires Scan(s).Some?
    ensures Grammatical(Scan(s).value) && Render(Scan(s).value) == s
  {
    var n, l := SignLength(s), Scan(s).value;
    var body := s[n..];
    var m := ScanMantissa(body);
    assert s == s[..n] + body;
    ScanExponentIsSound(m.rest);
    ScanMantissaIsSound(body);
    assert RenderTail(l) == (if m.dot then "." else "") + (m.fp + m.rest);
  }

  lemma ScanMantissaIsSound(s: string)
    ensures var m := ScanMantissa(s);
            && AllDigits(m.ip) && AllDigits(m.fp) && (!m.dot ==> m.fp == "")
            && s == m.ip + ((if m.dot then "." else "") + (m.fp + m.rest))
  {
    hide DigitRun;
    var m := ScanMantissa(s);
    var n := DigitRun(s);
    var r := s[n..];
    if m.dot {
      var k := DigitRun(r[1..]);
      SplitTail(r, k);
      assert m.fp == r[1..][..k] && m.rest == r[1..][k..];
    }
  }

  lemma SplitTail(r: string, k: nat)
    requires r != "" && r[0] == '.' && k <= |r[1..]|
    ensures r == "." + (r[1..][..k] + r[1..][k..])
  {
  }

  lemma ScanExponentIsSound(s: string)
    requires ScanExponent(s).Some?
    ensures ExponentOk(ScanExponent(s).value) && RenderExponent(ScanExponent(s).value) == s
  {
  }

  // ---- what a literal denotes ----

  predicate Negative(l: Literal) {
    l.sign == "-"
  }

  /** The digits of the mantissa as one number. */
  function Coefficient(l: Literal): nat
    requires Grammatical(l)
  {
    NatOf(l.ip + l.fp)
  }

  function TrueExponent(e: Exponent): int
    requires ExponentOk(e)
  {
    match e
    case NoExponent => 0
    case Exponent(_, s, d) => if s == "-" then 0 - NatOf(d) else NatOf(d)
  }

  /** value * 10^4 == +-Coefficient * 10^TrueShift. */
  function TrueShift(l: Literal): int
    requires Grammatical(l)
  {
    TrueExponent(l.exp) - |l.fp| + 4
  }
}
