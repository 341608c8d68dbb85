/** The text chunker (backend/src/embed/chunking.ts). */
module Chunking {
  import opened JsText

  // ── normalizeForChunking, one function per replacement ────────────────────────

  /** /\r\n?/ → "\n" */
  function BreaksToLf(s: string): string {
    if s == [] then []
    else if s[0] == '\r' then ['\n'] + BreaksToLf(if |s| > 1 && s[1] == '\n' then s[2..] else s[1..])
    else [s[0]] + BreaksToLf(s[1..])
  }

  predicate Horizontal(c: char) {
    IsSpace(c) && c != '\n'
  }

  function DropHorizontal(s: string): (r: string)
    ensures |r| <= |s| && (r != [] ==> !Horizontal(r[0]))
  {
    if s != [] && Horizontal(s[0]) then DropHorizontal(s[1..]) else s
  }

  /** /[^\S\n]+/ → " " */
  function CollapseHorizontal(s: string): string
    decreases |s|
  {
    if s == [] then []
    else if Horizontal(s[0]) then [' '] + CollapseHorizontal(DropHorizontal(s[1..]))
    else [s[0]] + CollapseHorizontal(s[1..])
  }

  function DropSpaces(s: string): (r: string)
    ensures |r| <= |s| && (r != [] ==> r[0] != ' ')
  {
    if s != [] && s[0] == ' ' then DropSpaces(s[1..]) else s
  }

  /** / *\n * / → "\n" */
  function TightenBreaks(s: string): string
    decreases |s|
  {
    var rest := DropSpaces(s);
    if s == [] then []
    else if rest != [] && rest[0] == '\n' then ['\n'] + TightenBreaks(DropSpaces(rest[1..]))
    else [s[0]] + TightenBreaks(s[1..])
  }

  function DropBreaks(s: string): (r: string)
    ensures |r| <= |s| && (r != [] ==> r[0] != '\n')
  {
    if s != [] && s[0] == '\n' then DropBreaks(s[1..]) else s
  }

  /** /\n{3,}/ → "\n\n" */
  function LimitBreaks(s: string): string
    decreases |s|
  {
    if s == [] then []
    else if |s| - |DropBreaks(s)| >= 3 then ['\n', '\n'] + LimitBreaks(DropBreaks(s))
    else [s[0]] + LimitBreaks(s[1..])
  }

  function Normalize(text: string): string {
    Trim(LimitBreaks(TightenBreaks(CollapseHorizontal(BreaksToLf(text)))))
  }

  // ── What normalized text looks like ───────────────────────────────────────────

  predicate Plain(c: char) {
    IsSpace(c) ==> c == ' ' || c == '\n'
  }

  /** No ' ' beside other whitespace, except that a '\n' may follow a '\n'. */
  predicate Apart(a: char, b: char) {
    !(a == ' ' && IsSpace(b)) && !(a == '\n' && b == ' ')
  }

  predicate ThreeBreaks(s: string) {
    |s| > 2 && s[0] == '\n' && s[1] == '\n' && s[2] == '\n'
  }

  /** Three whitespace characters in a row from `i` on. */
  predicate BlankRun(s: string, i: nat) {
    i + 2 < |s| && IsSpace(s[i]) && IsSpace(s[i + 1]) && IsSpace(s[i + 2])
  }

  predicate SingleSpaced(s: string) {
    s == [] || (Plain(s[0]) && (|s| > 1 && s[0] == ' ' ==> s[1] != ' ') && SingleSpaced(s[1..]))
  }

  predicate Tight(s: string) {
    s == [] || (Plain(s[0]) && (|s| > 1 ==> Apart(s[0], s[1])) && Tight(s[1..]))
  }

  /** Whitespace is only ' ' and '\n'; a ' ' stands alone; at most two '\n' in a row. */
  predicate Normal(s: string) {
    s == [] || (Plain(s[0]) && (|s| > 1 ==> Apart(s[0], s[1])) && !ThreeBreaks(s) && Normal(s[1..]))
  }

  function Ink(s: string): string {
    if s == [] then [] else (if IsSpace(s[0]) then [] else [s[0]]) + Ink(s[1..])
  }

  lemma {:induction false} InkOfBlankThen(lead: string, s: string)
    requires Blank(lead)
    ensures Ink(lead + s) == Ink(s)
  {
    if lead == [] {
      assert lead + s == s;
    } else {
      assert (lead + s)[1..] == lead[1..] + s && IsSpace(lead[0]);
      InkOfBlankThen(lead[1..], s);
    }
  }

  lemma {:induction false} InkOfThenBlank(s: string, tail: string)
    requires Blank(tail)
    ensures Ink(s + tail) == Ink(s)
  {
    if s == [] {
      InkOfBlankThen(tail, []);
      assert s + tail == tail + [];
    } else {
      assert (s + tail)[1..] == s[1..] + tail;
      InkOfThenBlank(s[1..], tail);
    }
  }

  // Each replacement keeps the ink; what it does to whitespace is stated on its result.

  lemma {:induction false} BreaksToLfEffect(s: string)
    ensures Ink(BreaksToLf(s)) == Ink(s) && '\r' !in BreaksToLf(s)
    decreases |s|
  {
    if s != [] {
      if s[0] == '\r' && |s| > 1 && s[1] == '\n' {
        BreaksToLfEffect(s[2..]);
        assert s[1..][1..] == s[2..];
      } else {
        BreaksToLfEffect(s[1..]);
      }
    }
  }

  lemma {:induction false} DropHorizontalKeepsInk(s: string)
    ensures Ink(DropHorizontal(s)) == Ink(s)
  {
    if s != [] && Horizontal(s[0]) {
      DropHorizontalKeepsInk(s[1..]);
    }
  }

  lemma {:induction false} CollapseHorizontalEffect(s: string)
    ensures var r := CollapseHorizontal(s);
            && Ink(r) == Ink(s) && SingleSpaced(r)
            && (r != [] ==> s != [] && (r[0] == ' ' ==> Horizontal(s[0])))
    decreases |s|
  {
    if s != [] {
      var rest := if Horizontal(s[0]) then DropHorizontal(s[1..]) else s[1..];
      DropHorizontalKeepsInk(s[1..]);
      CollapseHorizontalEffect(rest);
      assert CollapseHorizontal(s)[1..] == CollapseHorizontal(rest);
    }
  }

  lemma {:induction false} DropSpacesKeepsInk(s: string)
    ensures Ink(DropSpaces(s)) == Ink(s)
  {
    if s != [] && s[0] == ' ' {
      DropSpacesKeepsInk(s[1..]);
    }
  }

  lemma {:induction false} DropSpacesKeepsSingle(s: string)
    requires SingleSpaced(s)
    ensures SingleSpaced(DropSpaces(s)) && DropSpaces(s) == if s != [] && s[0] == ' ' then s[1..] else s
  {
    if s != [] && s[0] == ' ' {
      DropSpacesKeepsSingle(s[1..]);
    }
  }

  lemma {:induction false} TightenBreaksEffect(s: string)
    requires SingleSpaced(s)
    ensures var r := TightenBreaks(s);
            && Ink(r) == Ink(s) && Tight(r)
            && (r != [] ==> s != [] && (r[0] == s[0] || (s[0] == ' ' && r[0] == '\n')))
            && (|s| > 1 && s[0] == ' ' && s[1] == '\n' ==> r[0] == '\n')
    decreases |s|
  {
    if s != [] {
      var after := DropSpaces(s);
      DropSpacesKeepsInk(s);
      DropSpacesKeepsSingle(s);
      if after != [] && after[0] == '\n' {
        var rest := DropSpaces(after[1..]);
        DropSpacesKeepsInk(after[1..]);
        DropSpacesKeepsSingle(after[1..]);
        TightenBreaksEffect(rest);
        assert TightenBreaks(s)[1..] == TightenBreaks(rest);
      } else {
        TightenBreaksEffect(s[1..]);
        assert TightenBreaks(s)[1..] == TightenBreaks(s[1..]);
      }
    }
  }

  lemma {:induction false} DropBreaksKeepsInk(s: string)
    requires Tight(s)
    ensures Ink(DropBreaks(s)) == Ink(s) && Tight(DropBreaks(s))
    ensures |s| - |DropBreaks(s)| >= 3 <==> ThreeBreaks(s)
    ensures s != [] && s[0] == '\n' && DropBreaks(s) != [] ==> Apart('\n', DropBreaks(s)[0])
  {
    if s != [] && s[0] == '\n' {
      DropBreaksKeepsInk(s[1..]);
      if |s| > 1 && s[1] == '\n' {
        assert DropBreaks(s[1..]) == DropBreaks(s[1..][1..]);
        assert |s| > 2 ==> s[1..][1] == s[2] && s[1..][1..][0] == s[2];
      }
    }
  }

  lemma {:induction false} LimitBreaksEffect(s: string)
    requires Tight(s)
    ensures var r := LimitBreaks(s);
            && Ink(r) == Ink(s) && Normal(r)
            && (s == [] <==> r == []) && (s != [] ==> r[0] == s[0])
            && (|r| > 1 && r[0] == '\n' && r[1] == '\n' ==> |s| > 1 && s[1] == '\n')
    decreases |s|
  {
    if s != [] {
      var after := DropBreaks(s);
      DropBreaksKeepsInk(s);
      var r := LimitBreaks(s);
      if |s| - |after| >= 3 {
        LimitBreaksEffect(after);
        assert r[1..][1..] == LimitBreaks(after);
        assert r[1..] == ['\n'] + LimitBreaks(after);
      } else {
        LimitBreaksEffect(s[1..]);
        assert r[1..] == LimitBreaks(s[1..]);
        assert |s| > 2 ==> s[1..][1] == s[2];
      }
    }
  }

  lemma {:induction false} NormalMiddle(lead: string, mid: string, tail: string)
    requires Normal(lead + mid + tail)
    ensures Normal(mid)
    decreases |lead| + |mid|
  {
    var s := lead + mid + tail;
    if lead != [] {
      assert s[1..] == lead[1..] + mid + tail;
      NormalMiddle(lead[1..], mid, tail);
    } else if mid != [] {
      assert s[1..] == [] + mid[1..] + tail;
      assert s[0] == mid[0] && (|mid| > 1 ==> s[1] == mid[1]) && (|mid| > 2 ==> s[2] == mid[2]);
      NormalMiddle([], mid[1..], tail);
    }
  }

  lemma {:induction false} NormalRuns(s: string, i: nat)
    requires Normal(s)
    ensures !BlankRun(s, i)
  {
    if i + 2 >= |s| { return; }
    var t := s[1..];
    if i > 0 {
      NormalRuns(t, i - 1);
    } else {
      assert Apart(t[0], t[1]) && t[0] == s[1] && t[1] == s[2];
      assert Plain(t[0]) && Plain(t[1]) by { assert t[1..][0] == t[1] && Normal(t[1..]); }
      assert Apart(s[0], s[1]) && !ThreeBreaks(s);
    }
  }

  /** Normalized text is in normal form, has no whitespace run longer than 2, and holds exactly
      the non-whitespace characters of the input, in order. */
  lemma NormalizeEffect(text: string)
    ensures var n := Normalize(text);
            && Normal(n) && Trimmed(n) && Ink(n) == Ink(text)
            && forall i: nat :: !BlankRun(n, i)
  {
    var a := BreaksToLf(text);
    var b := CollapseHorizontal(a);
    var c := TightenBreaks(b);
    var d := LimitBreaks(c);
    BreaksToLfEffect(text);
    CollapseHorizontalEffect(a);
    TightenBreaksEffect(b);
    LimitBreaksEffect(c);
    var lead, tail := TrimParts(d);
    var n := Trim(d);
    InkOfThenBlank(lead + n, tail);
    InkOfBlankThen(lead, n);
    NormalMiddle(lead, n, tail);
    forall i: nat ensures !BlankRun(n, i) {
      NormalRuns(n, i);
    }
  }

  // ── Text in normal form is left alone ─────────────────────────────────────────

  lemma {:induction false} NormalIsTight(s: string)
    requires Normal(s)
    ensures Tight(s) && SingleSpaced(s)
  {
    if s != [] {
      NormalIsTight(s[1..]);
    }
  }

  lemma {:induction false} NormalIsFixed(s: string)
    requires Normal(s)
    ensures BreaksToLf(s) == s && CollapseHorizontal(s) == s && TightenBreaks(s) == s && LimitBreaks(s) == s
  {
    if s != [] {
      var t := s[1..];
      NormalIsFixed(t);
      NormalIsTight(s);
      DropSpacesKeepsSingle(s);
      DropBreaksKeepsInk(s);
      assert t != [] ==> t[0] == s[1];
      assert s == [s[0]] + t;
      assert Horizontal(s[0]) ==> DropHorizontal(t) == t;
      assert s[0] == '\n' ==> DropSpaces(t) == t;
    }
  }

  lemma NormalizeIsIdempotent(text: string)
    ensures Normalize(Normalize(text)) == Normalize(text)
  {
    NormalizeEffect(text);
    NormalIsFixed(Normalize(text));
    TrimOfTrimmed(Normalize(text));
  }
}
