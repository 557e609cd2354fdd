/** The parts of Go's text packages that the program leans on. */
module Text {

  /** unicode.IsSpace. */
  predicate IsSpace(c: char) {
    var n := c as int;
    || 9 <= n <= 13 || n == 0x20 || n == 0x85 || n == 0xA0 || n == 0x1680 || 0x2000 <= n <= 0x200A
    || n == 0x2028 || n == 0x2029 || n == 0x202F || n == 0x205F || n == 0x3000
  }

  /** strings.TrimSpace and bytes.TrimSpace. */
  function TrimSpace(s: string): string
    decreases |s|
  {
    if s != "" && IsSpace(s[0]) then TrimSpace(s[1..])
    else if s != "" && IsSpace(s[|s| - 1]) then TrimSpace(s[..|s| - 1])
    else s
  }

  predicate Blank(s: string) {
    forall i :: 0 <= i < |s| ==> IsSpace(s[i])
  }

  /** Trimming removes exactly the blanks around a token. */
  lemma {:induction false} TrimBoth(a: string, t: string, b: string)
    requires Blank(a) && Blank(b) && t != "" && !IsSpace(t[0]) && !IsSpace(t[|t| - 1])
    ensures TrimSpace(a + t + b) == t
    decreases |a| + |b|
  {
    hide IsSpace;
    if a != "" {
      assert (a + t + b)[1..] == a[1..] + t + b;
      TrimBoth(a[1..], t, b);
    } else if b != "" {
      var c := b[..|b| - 1];
      assert (a + t + b)[..|a + t + b| - 1] == a + t + c;
      TrimBoth(a, t, c);
    } else {
      assert a + t + b == t;
    }
  }

  /** Trimming only ever takes blanks off the ends, and takes all of them. */
  lemma {:induction false} TrimDecomposes(s: string) returns (a: string, b: string)
    ensures s == a + TrimSpace(s) + b && Blank(a) && Blank(b)
    ensures TrimSpace(s) != "" ==> !IsSpace(TrimSpace(s)[0]) && !IsSpace(TrimSpace(s)[|TrimSpace(s)| - 1])
    decreases |s|
  {
    hide IsSpace, TrimSpace, Blank;
    TrimStep(s);
    if s != "" && IsSpace(s[0]) {
      var c;
      c, b := TrimDecomposes(s[1..]);
      a := [s[0]] + c;
      assert s == [s[0]] + s[1..];
      Regroup([s[0]], c, TrimSpace(s), b, "");
      BlankGrows(s[0], c);
    } else if s != "" && IsSpace(s[|s| - 1]) {
      var n, c := |s| - 1, "";
      a, c := TrimDecomposes(s[..n]);
      b := c + [s[n]];
      assert s == s[..n] + [s[n]];
      Regroup("", a, TrimSpace(s), c, [s[n]]);
      BlankGrows(s[n], c);
    } else {
      a, b := "", "";
      NothingIsBlank();
    }
  }

  lemma TrimStep(s: string)
    ensures s != "" && IsSpace(s[0]) ==> TrimSpace(s) == TrimSpace(s[1..])
    ensures s != "" && !IsSpace(s[0]) && IsSpace(s[|s| - 1]) ==> TrimSpace(s) == TrimSpace(s[..|s| - 1])
    ensures s == "" || (!IsSpace(s[0]) && !IsSpace(s[|s| - 1])) ==> TrimSpace(s) == s
  {
  }

  lemma Regroup(x: string, a: string, t: string, b: string, y: string)
    ensures x + (a + t + b) + y == (x + a) + t + (b + y)
  {
  }

  lemma NothingIsBlank()
    ensures Blank("")
  {
  }

  lemma BlankGrows(c: char, s: string)
    requires IsSpace(c) && Blank(s)
    ensures Blank([c] + s) && Blank(s + [c])
  {
    hide IsSpace;
  }

  /** unicode.ToLower as far as ASCII results go: besides A to Z, two other letters fold to
      ASCII, the dotted capital I and the Kelvin sign. */
  function LowerChar(c: char): char {
    if 'A' <= c <= 'Z' then c - 'A' + 'a'
    else if c as int == 0x130 then 'i'
    else if c as int == 0x212A then 'k'
    else c
  }
}
