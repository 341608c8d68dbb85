/** The few string operations of JavaScript the models share. A `string` here is a sequence of
    Dafny characters; its length and slices stand for those of the JavaScript string. */
module JsText {
  /** What `\s` matches and `trim` removes. */
  predicate IsSpace(c: char) {
    if c <= '~' then '\t' <= c <= '\r' || c == ' ' else IsWideSpace(c)
  }

  predicate IsWideSpace(c: char) {
    || c == '\U{00a0}' || c == '\U{1680}' || '\U{2000}' <= c <= '\U{200a}'
    || c == '\U{2028}' || c == '\U{2029}' || c == '\U{202f}' || c == '\U{205f}' || c == '\U{3000}' || c == '\U{feff}'
  }

  predicate Blank(s: string) {
    forall c <- s :: IsSpace(c)
  }

  predicate Trimmed(s: string) {
    s != [] ==> !IsSpace(s[0]) && !IsSpace(s[|s| - 1])
  }

  function TrimStart(s: string): (r: string)
    ensures r != [] ==> !IsSpace(r[0])
  {
    if s != [] && IsSpace(s[0]) then TrimStart(s[1..]) else s
  }

  function TrimEnd(s: string): (r: string)
    ensures r <= s
    ensures r != [] ==> !IsSpace(r[|r| - 1])
  {
    if s != [] && IsSpace(s[|s| - 1]) then TrimEnd(s[..|s| - 1]) else s
  }

  function Trim(s: string): (r: string)
    ensures Trimmed(r)
  {
    TrimEnd(TrimStart(s))
  }

  lemma {:induction false} TrimStartPart(s: string) returns (lead: string)
    ensures s == lead + TrimStart(s) && Blank(lead)
  {
    if s != [] && IsSpace(s[0]) {
      var l := TrimStartPart(s[1..]);
      lead := [s[0]] + l;
      BlankThenBlank(s[0], l);
      assert s == [s[0]] + s[1..] && [s[0]] + (l + TrimStart(s)) == lead + TrimStart(s);
    } else {
      lead := [];
    }
  }

  lemma BlankThenBlank(c: char, s: string)
    requires IsSpace(c) && Blank(s)
    ensures Blank([c] + s)
  {
  }

  lemma {:induction false} TrimEndPart(s: string) returns (tail: string)
    ensures s == TrimEnd(s) + tail && Blank(tail)
  {
    if s != [] && IsSpace(s[|s| - 1]) {
      var t := TrimEndPart(s[..|s| - 1]);
      tail := t + [s[|s| - 1]];
      assert s == s[..|s| - 1] + [s[|s| - 1]];
    } else {
      tail := [];
    }
  }

  /** Trimming splits off blank ends and nothing else. */
  lemma TrimParts(s: string) returns (lead: string, tail: string)
    ensures s == lead + Trim(s) + tail && Blank(lead) && Blank(tail)
  {
    lead := TrimStartPart(s);
    tail := TrimEndPart(TrimStart(s));
  }

  lemma {:induction false} TrimIsEmptyIffBlank(s: string)
    ensures Trim(s) == "" <==> Blank(s)
  {
    var lead, tail := TrimParts(s);
    if Trim(s) == "" {
      assert s == lead + tail;
    } else {
      assert s[|lead|] == Trim(s)[0];
    }
  }

  lemma TrimOfTrimmed(s: string)
    requires Trimmed(s)
    ensures Trim(s) == s
  {
  }

  predicate IsDigit(c: char) {
    '0' <= c <= '9'
  }

  /** A number in decimal. */
  function Decimal(n: nat): (s: string)
    ensures s != [] && forall c <- s :: IsDigit(c)
  {
    var digit := [('0' as int + n % 10) as char];
    if n < 10 then digit else Decimal(n / 10) + digit
  }

  lemma {:induction false} DecimalIsInjective(m: nat, n: nat)
    requires Decimal(m) == Decimal(n)
    ensures m == n
  {
    var s, t := Decimal(m), Decimal(n);
    assert s[|s| - 1] as int == '0' as int + m % 10 && t[|t| - 1] as int == '0' as int + n % 10;
    if m >= 10 && n >= 10 {
      assert s[..|s| - 1] == Decimal(m / 10) && t[..|t| - 1] == Decimal(n / 10);
      DecimalIsInjective(m / 10, n / 10);
    }
  }

  /** The last occurrence of a separator splits a string in one way. */
  lemma LastSeparatorSplits(a: string, b: string, c: string, d: string, sep: char)
    requires sep !in b && sep !in d && a + [sep] + b == c + [sep] + d
    ensures a == c && b == d
  {
    var s := a + [sep] + b;
    assert s[|a|] == sep && s[|c|] == sep;
    assert forall i | |a| < i < |s| :: s[i] == b[i - |a| - 1];
    assert forall i | |c| < i < |s| :: s[i] == d[i - |c| - 1];
    assert |a| == |c|;
    assert a == s[..|a|] == c && b == s[|a| + 1..] == d;
  }

  // ---- As the standards list them

  /** The whitespace and line terminators of ECMAScript. */
  lemma SpacesAre(c: char)
    ensures IsSpace(c) <==>
              c in "\t\n\r \U{000b}\U{000c}\U{00a0}\U{1680}\U{2000}\U{2001}\U{2002}\U{2003}\U{2004}\U{2005}\U{2006}\U{2007}\U{2008}\U{2009}\U{200a}\U{2028}\U{2029}\U{202f}\U{205f}\U{3000}\U{feff}"
  {
  }

  /** Decimal digits, the last one the remainder by ten. */
  lemma DecimalByDigits(n: nat, d: nat)
    requires d < 10
    ensures Decimal(d) == ["0123456789"[d]]
    ensures n > 0 ==> Decimal(10 * n + d) == Decimal(n) + ["0123456789"[d]]
  {
  }
}
