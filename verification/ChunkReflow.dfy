/** What normalization writes between the visible characters (backend/src/embed/chunking.ts,
    normalizeForChunking): the four replacements and the trim, told as one pass. */
module ChunkReflow {
  import opened Collections
  import opened JsText
  import opened Chunking

  /** The blanks read since the last visible character: none, or with so many line breaks; those
      before the first visible character are dropped. */
  datatype Gap = AtStart | NoGap | Blanks(breaks: nat)

  function More(g: Gap, breaks: nat): Gap {
    match g
    case AtStart => AtStart
    case NoGap => Blanks(breaks)
    case Blanks(n) => Blanks(n + breaks)
  }

  /** One space, one line break, or two for more. */
  function GapText(g: Gap): string {
    match g
    case AtStart => ""
    case NoGap => ""
    case Blanks(n) => if n == 0 then " " else if n == 1 then "\n" else "\n\n"
  }

  predicate IsBreak(c: char) {
    c == '\n' || c == '\r'
  }

  /** `cr` says that a carriage return came just before: a line feed after it is the same break. */
  function Reflow(s: string, g: Gap, cr: bool): string {
    if s == "" then ""
    else if !IsSpace(s[0]) then GapText(g) + [s[0]] + Reflow(s[1..], NoGap, false)
    else if s[0] == '\n' && cr then Reflow(s[1..], g, false)
    else Reflow(s[1..], More(g, if IsBreak(s[0]) then 1 else 0), s[0] == '\r')
  }

  // ---- Carriage returns

  lemma AfterReturn(s: string, g: Gap)
    ensures Reflow(s, g, true) == Reflow(if s != "" && s[0] == '\n' then s[1..] else s, g, false)
  {
  }

  lemma {:induction false} BreaksReflow(s: string, g: Gap)
    ensures Reflow(BreaksToLf(s), g, false) == Reflow(s, g, false)
    decreases |s|
  {
    if s != "" {
      var out := BreaksToLf(s);
      if s[0] == '\r' {
        var rest := if |s| > 1 && s[1] == '\n' then s[2..] else s[1..];
        assert out == ['\n'] + BreaksToLf(rest) && out[1..] == BreaksToLf(rest);
        BreaksReflow(rest, More(g, 1));
        AfterReturn(s[1..], More(g, 1));
        assert |s| > 1 && s[1] == '\n' ==> s[1..][1..] == s[2..];
      } else {
        assert out[1..] == BreaksToLf(s[1..]);
        BreaksReflow(s[1..], NextGap(s[0], g));
      }
    }
  }

  /** The gap after a character, without carriage returns. */
  function NextGap(c: char, g: Gap): Gap {
    if !IsSpace(c) then NoGap else More(g, if IsBreak(c) then 1 else 0)
  }

  lemma OneChar(c: char, s: string, g: Gap)
    requires c != '\r'
    ensures Reflow([c] + s, g, false)
         == (if IsSpace(c) then "" else GapText(g) + [c]) + Reflow(s, NextGap(c, g), false)
  {
    assert ([c] + s)[1..] == s;
  }

  // ---- Spaces

  lemma {:induction false} DroppedHorizontal(s: string, g: Gap)
    requires '\r' !in s && (g.AtStart? || g.Blanks?)
    ensures Reflow(DropHorizontal(s), g, false) == Reflow(s, g, false) && '\r' !in DropHorizontal(s)
  {
    if s != "" && Horizontal(s[0]) {
      DroppedHorizontal(s[1..], g);
    }
  }

  lemma {:induction false} CollapseReflow(s: string, g: Gap)
    requires '\r' !in s
    ensures Reflow(CollapseHorizontal(s), g, false) == Reflow(s, g, false)
    decreases |s|
  {
    if s != "" {
      assert s == [s[0]] + s[1..];
      OneChar(s[0], s[1..], g);
      if Horizontal(s[0]) {
        var rest := DropHorizontal(s[1..]);
        DroppedHorizontal(s[1..], More(g, 0));
        CollapseReflow(rest, More(g, 0));
        OneChar(' ', CollapseHorizontal(rest), g);
      } else {
        CollapseReflow(s[1..], NextGap(s[0], g));
        OneChar(s[0], CollapseHorizontal(s[1..]), g);
      }
    }
  }

  lemma {:induction false} DroppedSpaces(s: string, g: Gap)
    requires '\r' !in s && (g.AtStart? || g.Blanks?)
    ensures Reflow(DropSpaces(s), g, false) == Reflow(s, g, false) && '\r' !in DropSpaces(s)
  {
    if s != "" && s[0] == ' ' {
      DroppedSpaces(s[1..], g);
    }
  }

  /** Spaces before a line break add nothing to it. */
  lemma {:induction false} SpacesBeforeBreak(s: string, g: Gap)
    requires '\r' !in s && DropSpaces(s) != "" && DropSpaces(s)[0] == '\n'
    ensures Reflow(s, g, false) == Reflow(DropSpaces(s)[1..], More(g, 1), false)
    ensures '\r' !in DropSpaces(s)[1..]
  {
    if s[0] == ' ' {
      SpacesBeforeBreak(s[1..], More(g, 0));
    }
  }

  lemma {:induction false} TightenReflow(s: string, g: Gap)
    requires '\r' !in s
    ensures Reflow(TightenBreaks(s), g, false) == Reflow(s, g, false)
    decreases |s|
  {
    var rest := DropSpaces(s);
    if s != "" {
      if rest != "" && rest[0] == '\n' {
        var after := DropSpaces(rest[1..]);
        SpacesBeforeBreak(s, g);
        DroppedSpaces(rest[1..], More(g, 1));
        TightenReflow(after, More(g, 1));
        OneChar('\n', TightenBreaks(after), g);
      } else {
        TightenReflow(s[1..], NextGap(s[0], g));
        OneChar(s[0], TightenBreaks(s[1..]), g);
        OneChar(s[0], s[1..], g);
        assert s == [s[0]] + s[1..];
      }
    }
  }

  // ---- Line breaks

  /** Two line breaks and more are written alike. */
  predicate Alike(a: Gap, b: Gap) {
    a == b || (a.Blanks? && b.Blanks? && a.breaks >= 2 && b.breaks >= 2)
  }

  lemma {:induction false} AlikeReflow(s: string, a: Gap, b: Gap, cr: bool)
    requires Alike(a, b)
    ensures Reflow(s, a, cr) == Reflow(s, b, cr)
  {
    if s != "" && IsSpace(s[0]) {
      if s[0] == '\n' && cr {
        AlikeReflow(s[1..], a, b, false);
      } else {
        var n := if IsBreak(s[0]) then 1 else 0;
        AlikeReflow(s[1..], More(a, n), More(b, n), s[0] == '\r');
      }
    }
  }

  lemma MoreMore(g: Gap, a: nat, b: nat)
    ensures More(More(g, a), b) == More(g, a + b)
  {
  }

  lemma {:induction false} DroppedBreaks(s: string, g: Gap)
    requires '\r' !in s && s != "" && s[0] == '\n'
    ensures '\r' !in DropBreaks(s)
    ensures Reflow(s, g, false) == Reflow(DropBreaks(s), More(g, |s| - |DropBreaks(s)|), false)
  {
    var t := s[1..];
    assert s == ['\n'] + t;
    OneChar('\n', t, g);
    if t != "" && t[0] == '\n' {
      DroppedBreaks(t, More(g, 1));
      MoreMore(g, 1, |t| - |DropBreaks(t)|);
    }
  }

  lemma {:induction false} LimitReflow(s: string, g: Gap)
    requires '\r' !in s
    ensures Reflow(LimitBreaks(s), g, false) == Reflow(s, g, false)
    decreases |s|
  {
    if s != "" {
      var after := DropBreaks(s);
      if |s| - |after| >= 3 {
        DroppedBreaks(s, g);
        LimitReflow(after, More(g, 2));
        AlikeReflow(after, More(g, 2), More(g, |s| - |after|), false);
        TwoBreaks(LimitBreaks(after), g);
      } else {
        LimitReflow(s[1..], NextGap(s[0], g));
        OneChar(s[0], LimitBreaks(s[1..]), g);
        OneChar(s[0], s[1..], g);
        assert s == [s[0]] + s[1..];
      }
    }
  }

  lemma TwoBreaks(s: string, g: Gap)
    ensures Reflow(['\n', '\n'] + s, g, false) == Reflow(s, More(g, 2), false)
  {
    assert ['\n', '\n'] + s == ['\n'] + (['\n'] + s);
    OneChar('\n', ['\n'] + s, g);
    OneChar('\n', s, More(g, 1));
  }

  // ---- The ends

  lemma {:induction false} LeadReflow(lead: string, s: string)
    requires Blank(lead) && '\r' !in lead
    ensures Reflow(lead + s, AtStart, false) == Reflow(s, AtStart, false)
  {
    if lead == "" {
      assert lead + s == s;
    } else {
      assert lead + s == [lead[0]] + (lead[1..] + s);
      assert lead[0] in lead;
      OneChar(lead[0], lead[1..] + s, AtStart);
      LeadReflow(lead[1..], s);
    }
  }

  lemma {:induction false} BlankReflow(s: string, g: Gap, cr: bool)
    requires Blank(s)
    ensures Reflow(s, g, cr) == ""
  {
    if s != "" {
      assert s[0] in s;
      if s[0] == '\n' && cr {
        BlankReflow(s[1..], g, false);
      } else {
        BlankReflow(s[1..], More(g, if IsBreak(s[0]) then 1 else 0), s[0] == '\r');
      }
    }
  }

  lemma {:induction false} TailReflow(s: string, tail: string, g: Gap)
    requires Blank(tail) && '\r' !in s
    ensures Reflow(s + tail, g, false) == Reflow(s, g, false)
  {
    if s == "" {
      assert s + tail == tail;
      BlankReflow(tail, g, false);
    } else {
      assert s + tail == [s[0]] + (s[1..] + tail) && s == [s[0]] + s[1..];
      OneChar(s[0], s[1..] + tail, g);
      OneChar(s[0], s[1..], g);
      TailReflow(s[1..], tail, NextGap(s[0], g));
    }
  }

  // ---- Text in normal form

  /** Normal text that ends visibly is written as it is, behind the gap before it. */
  lemma {:induction false} NormalReflow(s: string, g: Gap)
    requires Normal(s) && s != "" && !IsSpace(s[|s| - 1])
    requires g.NoGap? || !IsSpace(s[0])
    ensures Reflow(s, g, false) == GapText(g) + s
    decreases |s|
  {
    assert s == [s[0]] + s[1..];
    if !IsSpace(s[0]) {
      if |s| > 1 {
        NormalReflow(s[1..], NoGap);
      }
      VisibleHead(s[0], s[1..], g);
    } else if s[0] == '\n' && s[1] == '\n' {
      assert s == ['\n', '\n'] + s[2..] && s[1..][1..] == s[2..];
      VisibleNext(s[1..]);
      NormalReflow(s[2..], Blanks(2));
      BreaksHead(s[2..]);
    } else {
      VisibleNext(s);
      NormalReflow(s[1..], NextGap(s[0], NoGap));
      BlankHead(s[0], s[1..]);
    }
  }

  lemma VisibleHead(c: char, s: string, g: Gap)
    requires !IsSpace(c) && Reflow(s, NoGap, false) == s
    ensures Reflow([c] + s, g, false) == GapText(g) + ([c] + s)
  {
    OneChar(c, s, g);
    Assoc(GapText(g), [c], s);
  }

  lemma BreaksHead(s: string)
    requires Reflow(s, Blanks(2), false) == GapText(Blanks(2)) + s
    ensures Reflow(['\n', '\n'] + s, NoGap, false) == GapText(NoGap) + (['\n', '\n'] + s)
  {
    TwoBreaks(s, NoGap);
    assert GapText(NoGap) + (['\n', '\n'] + s) == ['\n', '\n'] + s;
  }

  lemma BlankHead(c: char, s: string)
    requires c == ' ' || c == '\n'
    requires Reflow(s, NextGap(c, NoGap), false) == GapText(NextGap(c, NoGap)) + s
    ensures Reflow([c] + s, NoGap, false) == GapText(NoGap) + ([c] + s)
  {
    OneChar(c, s, NoGap);
    assert GapText(NextGap(c, NoGap)) == [c];
  }

  /** After a lone blank of a normal text comes something visible. */
  lemma VisibleNext(s: string)
    requires Normal(s) && |s| > 1 && IsSpace(s[0]) && !(s[0] == '\n' && s[1] == '\n')
    ensures !IsSpace(s[1]) && (s[0] == ' ' || s[0] == '\n')
  {
    assert Plain(s[0]) && Apart(s[0], s[1]) && Plain(s[1..][0]);
  }

  lemma {:induction false} SingleSpacedHasNoReturn(s: string)
    requires SingleSpaced(s)
    ensures '\r' !in s
  {
    if s != "" {
      SingleSpacedHasNoReturn(s[1..]);
      assert Plain(s[0]) && s == [s[0]] + s[1..];
    }
  }

  lemma {:induction false} TightHasNoReturn(s: string)
    requires Tight(s)
    ensures '\r' !in s
  {
    if s != "" {
      TightHasNoReturn(s[1..]);
      assert Plain(s[0]) && s == [s[0]] + s[1..];
    }
  }

  lemma TrimReflow(s: string)
    requires Normal(s) && '\r' !in s
    ensures Trim(s) == Reflow(s, AtStart, false)
  {
    var lead, tail := TrimParts(s);
    var n := Trim(s);
    assert s == lead + n + tail == lead + (n + tail);
    NormalMiddle(lead, n, tail);
    NoReturnInParts(s, lead, n, tail);
    LeadReflow(lead, n + tail);
    TailReflow(n, tail, AtStart);
    if n != "" {
      NormalReflow(n, AtStart);
    }
  }

  lemma NoReturnInParts(s: string, lead: string, n: string, tail: string)
    requires s == lead + n + tail && '\r' !in s
    ensures '\r' !in lead && '\r' !in n
  {
    assert forall c | c in lead :: c in s;
    assert forall c | c in n :: c in lead + n && c in s;
  }

  /** The four replacements and the trim write every visible character, in order, and between two
      of them nothing, one space, one line break or two: by how many line breaks were there, a
      carriage return with its line feed being one. */
  lemma NormalizeIsReflow(text: string)
    ensures Normalize(text) == Reflow(text, AtStart, false)
  {
    var a := BreaksToLf(text);
    var b := CollapseHorizontal(a);
    var c := TightenBreaks(b);
    var d := LimitBreaks(c);
    BreaksToLfEffect(text);
    CollapseHorizontalEffect(a);
    TightenBreaksEffect(b);
    LimitBreaksEffect(c);
    SingleSpacedHasNoReturn(b);
    TightHasNoReturn(c);
    NormalIsTight(d);
    TightHasNoReturn(d);
    BreaksReflow(text, AtStart);
    CollapseReflow(a, AtStart);
    TightenReflow(b, AtStart);
    LimitReflow(c, AtStart);
    TrimReflow(d);
  }
}
