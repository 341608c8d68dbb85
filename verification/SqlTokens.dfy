/** What the statement splitter cuts (backend/src/custom-tools/custom-tool.factory.ts,
    splitStatements), told by the tokens SQL is written in: quoted literals, dollar-quoted ones,
    semicolons and all other characters. Every text is such tokens, and it is cut at exactly the
    semicolons among them. */
module SqlTokens {
  import opened Collections
  import opened JsText
  import Segments
  import opened SqlSplit

  /** The open ones are literals that the text ends in. */
  datatype Token =
    | Ordinary(c: char)
    | Semicolon
    | Literal(q: char, text: string)
    | Dollar(tag: string, body: string)
    | OpenLiteral(q: char, text: string)
    | OpenDollar(tag: string, body: string)

  /** A text as it is written inside a literal: its quotes doubled. */
  function Doubled(text: string, q: char): string {
    if text == "" then "" else (if text[0] == q then [q, q] else [text[0]]) + Doubled(text[1..], q)
  }

  function Written(t: Token): string {
    match t
    case Ordinary(c) => [c]
    case Semicolon => ";"
    case Literal(q, text) => [q] + Doubled(text, q) + [q]
    case Dollar(tag, body) => tag + body + tag
    case OpenLiteral(q, text) => [q] + Doubled(text, q)
    case OpenDollar(tag, body) => tag + body
  }

  function Text(ts: seq<Token>): string {
    if ts == [] then "" else Written(ts[0]) + Text(ts[1..])
  }

  /** Letters, digits and underscores between two dollar signs. */
  predicate IsTag(tag: string) {
    && |tag| >= 2 && tag[0] == '$' && tag[|tag| - 1] == '$'
    && forall i | 1 <= i < |tag| - 1 :: 'A' <= tag[i] <= 'Z' || 'a' <= tag[i] <= 'z' || '0' <= tag[i] <= '9' || tag[i] == '_'
  }

  predicate OccursAt(tag: string, s: string, i: nat) {
    i + |tag| <= |s| && s[i..i + |tag|] == tag
  }

  /** The token may stand before `rest`: a quote that is not doubled ends a literal, the first
      tag after it ends a dollar-quoted one, and what starts a literal is no ordinary character. */
  predicate Fits(t: Token, rest: string) {
    match t
    case Ordinary(c) =>
      c != '\'' && c != '"' && c != ';' && (c == '$' ==> forall n | 2 <= n <= 1 + |rest| :: !IsTag(([c] + rest)[..n]))
    case Semicolon => true
    case Literal(q, _) => (q == '\'' || q == '"') && (rest != "" ==> rest[0] != q)
    case Dollar(tag, body) => IsTag(tag) && forall i | 0 <= i < |body| :: !OccursAt(tag, body + tag, i)
    case OpenLiteral(q, _) => (q == '\'' || q == '"') && rest == ""
    case OpenDollar(tag, body) => IsTag(tag) && rest == "" && forall i | 0 <= i <= |body| :: !OccursAt(tag, body, i)
  }

  predicate Legal(ts: seq<Token>) {
    ts == [] || (Fits(ts[0], Text(ts[1..])) && Legal(ts[1..]))
  }

  /** The texts between the semicolons. */
  function Pieces(ts: seq<Token>): (pieces: seq<string>)
    ensures pieces != []
  {
    if ts == [] then [""]
    else
      var rest := Pieces(ts[1..]);
      if ts[0].Semicolon? then [""] + rest else [Written(ts[0]) + rest[0]] + rest[1..]
  }

  // ── Every text is tokens ──────────────────────────────────────────────────────

  lemma {:induction false} ReadLiteral(s: string, q: char) returns (text: string, rest: string, closed: bool)
    ensures if closed then s == Doubled(text, q) + [q] + rest && (rest != "" ==> rest[0] != q)
            else s == Doubled(text, q) && rest == ""
    decreases |s|
  {
    if s == "" {
      text, rest, closed := "", "", false;
    } else if s[0] == q && (|s| == 1 || s[1] != q) {
      text, rest, closed := "", s[1..], true;
      assert s == "" + [q] + rest;
    } else {
      var head := if s[0] == q then [q, q] else [s[0]];
      var more;
      more, rest, closed := ReadLiteral(s[|head|..], q);
      text := [s[0]] + more;
      assert s == head + s[|head|..];
      DoubledHead(s[0], more, q);
      if closed {
        RegroupThree(head, Doubled(more, q), q, rest);
      }
    }
  }

  lemma DoubledHead(c: char, more: string, q: char)
    ensures Doubled([c] + more, q) == (if c == q then [q, q] else [c]) + Doubled(more, q)
  {
    assert ([c] + more)[1..] == more;
  }

  lemma RegroupThree(head: string, inside: string, q: char, rest: string)
    ensures head + (inside + [q] + rest) == head + inside + [q] + rest
  {
  }

  lemma {:induction false} ReadDollar(s: string, tag: string) returns (body: string, rest: string, closed: bool)
    requires IsTag(tag)
    ensures if closed then s == body + tag + rest && forall i | 0 <= i < |body| :: !OccursAt(tag, body + tag, i)
            else s == body && rest == "" && forall i | 0 <= i <= |body| :: !OccursAt(tag, body, i)
    decreases |s|
  {
    if tag <= s {
      body, rest, closed := "", s[|tag|..], true;
      assert s == "" + tag + rest;
    } else if s == "" {
      body, rest, closed := "", "", false;
    } else {
      var more;
      more, rest, closed := ReadDollar(s[1..], tag);
      body := [s[0]] + more;
      assert s == [s[0]] + s[1..];
      if closed {
        assert s == body + tag + rest;
        NoneAtTheFront(s[0], more, tag, rest);
      } else {
        NoneInTheOpen(s[0], more, tag);
      }
    }
  }

  lemma NoneAtTheFront(c: char, more: string, tag: string, rest: string)
    requires !(tag <= [c] + more + tag + rest) && forall i | 0 <= i < |more| :: !OccursAt(tag, more + tag, i)
    ensures forall i | 0 <= i < 1 + |more| :: !OccursAt(tag, [c] + more + tag, i)
  {
    var s := [c] + more + tag;
    forall i | 0 <= i < 1 + |more|
      ensures !OccursAt(tag, s, i)
    {
      if i == 0 {
        assert ([c] + more + tag + rest)[..|tag|] == s[..|tag|];
      } else {
        assert s[i..i + |tag|] == (more + tag)[i - 1..i - 1 + |tag|];
        assert !OccursAt(tag, more + tag, i - 1);
      }
    }
  }

  lemma NoneInTheOpen(c: char, more: string, tag: string)
    requires !(tag <= [c] + more) && forall i | 0 <= i <= |more| :: !OccursAt(tag, more, i)
    ensures forall i | 0 <= i <= 1 + |more| :: !OccursAt(tag, [c] + more, i)
  {
    var s := [c] + more;
    forall i | 0 <= i <= 1 + |more|
      ensures !OccursAt(tag, s, i)
    {
      if i > 0 && i + |tag| <= |s| {
        assert s[i..i + |tag|] == more[i - 1..i - 1 + |tag|];
        assert !OccursAt(tag, more, i - 1);
      }
    }
  }

  lemma FirstLiteral(s: string) returns (t: Token, rest: string)
    requires s != "" && (s[0] == '\'' || s[0] == '"')
    ensures Fits(t, rest) && Written(t) + rest == s && |rest| < |s|
  {
    var text, after, closed := ReadLiteral(s[1..], s[0]);
    rest := after;
    assert s == [s[0]] + s[1..];
    if closed {
      t := Literal(s[0], text);
      assert [s[0]] + Doubled(text, s[0]) + [s[0]] + rest == [s[0]] + (Doubled(text, s[0]) + [s[0]] + rest);
    } else {
      t := OpenLiteral(s[0], text);
      assert Written(t) + "" == Written(t);
    }
  }

  lemma FirstDollar(s: string, n: nat) returns (t: Token, rest: string)
    requires 2 <= n <= |s| && IsTag(s[..n])
    ensures Fits(t, rest) && Written(t) + rest == s && |rest| < |s|
  {
    var tag := s[..n];
    var body, after, closed := ReadDollar(s[n..], tag);
    rest := after;
    assert s == tag + s[n..];
    if closed {
      t := Dollar(tag, body);
      assert tag + body + tag + rest == tag + (body + tag + rest);
    } else {
      t := OpenDollar(tag, body);
      assert Written(t) + "" == Written(t);
    }
  }

  /** The first token of a text. */
  lemma FirstToken(s: string) returns (t: Token, rest: string)
    requires s != ""
    ensures Fits(t, rest) && Written(t) + rest == s && |rest| < |s|
  {
    if s[0] == '\'' || s[0] == '"' {
      t, rest := FirstLiteral(s);
    } else if s[0] == ';' {
      t, rest := Semicolon, s[1..];
    } else if n :| 2 <= n <= |s| && IsTag(s[..n]) {
      t, rest := FirstDollar(s, n);
    } else {
      t, rest := Ordinary(s[0]), s[1..];
      assert [s[0]] + rest == s;
    }
  }

  lemma {:induction false} EveryTextIsTokens(s: string) returns (ts: seq<Token>)
    ensures Legal(ts) && Text(ts) == s
    decreases |s|
  {
    if s == "" {
      ts := [];
    } else {
      var t, rest := FirstToken(s);
      var more := EveryTextIsTokens(rest);
      ts := [t] + more;
      assert ts[1..] == more;
    }
  }

  // ── The scan goes over a token at once ────────────────────────────────────────

  lemma {:induction false} WordIsRead(s: string, n: nat)
    requires n < |s| && s[n] == '$' && forall i | 0 <= i < n :: WordChar(s[i])
    ensures WordLen(s) == n
    decreases n
  {
    if n > 0 {
      WordIsRead(s[1..], n - 1);
    }
  }

  lemma {:induction false} WordIsWord(s: string)
    ensures forall i | 0 <= i < WordLen(s) :: WordChar(s[i])
  {
    if s != "" && WordChar(s[0]) {
      WordIsWord(s[1..]);
    }
  }

  lemma TagIsRead(s: string, n: nat)
    requires 2 <= n <= |s| && IsTag(s[..n])
    ensures Tag(s) == n
  {
    var t := s[1..];
    forall i | 0 <= i < n - 2
      ensures WordChar(t[i])
    {
      assert t[i] == s[..n][i + 1];
    }
    assert t[n - 2] == s[..n][n - 1];
    WordIsRead(t, n - 2);
  }

  lemma TagIsTag(s: string)
    requires Tag(s) > 0
    ensures IsTag(s[..Tag(s)])
  {
    WordIsWord(s[1..]);
    var tag := s[..Tag(s)];
    forall i | 1 <= i < |tag| - 1
      ensures WordChar(tag[i])
    {
      assert tag[i] == s[1..][i - 1];
    }
  }

  /** One turn of the scan, by what it takes and leaves. */
  lemma CutOver(head: string, rest: string, m: Mode, next: Mode)
    requires head != "" && Turn(head + rest, m) == Move(|head|, next)
    ensures Cut(head + rest, m) == |head| + Cut(rest, next)
  {
    assert (head + rest)[|head|..] == rest;
  }

  lemma {:induction false} LiteralIsRead(text: string, q: char, after: string)
    requires q == '\'' || q == '"'
    requires after == "" || (after[0] == q && (|after| > 1 ==> after[1] != q))
    ensures Cut(Doubled(text, q) + after, Quoted([q]))
         == |Doubled(text, q)| + if after == "" then 0 else 1 + Cut(after[1..], Top)
  {
    if text == "" {
      assert Doubled(text, q) + after == after;
      if after != "" {
        assert after == [q] + after[1..];
        CutOver([q], after[1..], Quoted([q]), Top);
      }
    } else {
      var head, more := if text[0] == q then [q, q] else [text[0]], Doubled(text[1..], q) + after;
      LiteralIsRead(text[1..], q, after);
      Assoc(head, Doubled(text[1..], q), after);
      CutOver(head, more, Quoted([q]), Quoted([q]));
    }
  }

  lemma TailSlice(s: string, i: nat, n: nat)
    requires s != "" && i + n <= |s| - 1
    ensures s[1..][i..i + n] == s[i + 1..i + 1 + n]
  {
  }

  lemma NoneInTheTail(body: string, tag: string)
    requires body != "" && forall i | 0 <= i < |body| :: !OccursAt(tag, body + tag, i)
    ensures forall i | 0 <= i < |body| - 1 :: !OccursAt(tag, body[1..] + tag, i)
  {
    assert (body + tag)[1..] == body[1..] + tag;
    forall i | 0 <= i < |body| - 1
      ensures !OccursAt(tag, body[1..] + tag, i)
    {
      TailSlice(body + tag, i, |tag|);
      assert !OccursAt(tag, body + tag, i + 1);
    }
  }

  lemma DollarStep(c: char, more: string, tag: string, rest: string)
    requires |tag| > 1 && !(tag <= [c] + more + (tag + rest))
    requires Cut(more + (tag + rest), Quoted(tag)) == |more| + |tag| + Cut(rest, Top)
    ensures Cut([c] + more + (tag + rest), Quoted(tag)) == 1 + |more| + |tag| + Cut(rest, Top)
  {
    Assoc([c], more, tag + rest);
    OneInside(c, more + (tag + rest), [c] + more + (tag + rest), tag);
  }

  lemma {:induction false} DollarIsRead(body: string, tag: string, rest: string)
    requires IsTag(tag) && forall i | 0 <= i < |body| :: !OccursAt(tag, body + tag, i)
    ensures Cut(body + (tag + rest), Quoted(tag)) == |body| + |tag| + Cut(rest, Top)
  {
    if body == "" {
      assert body + (tag + rest) == tag + rest;
      CutOver(tag, rest, Quoted(tag), Top);
    } else {
      NoneInTheTail(body, tag);
      DollarIsRead(body[1..], tag, rest);
      NotAtTheFront(body, tag, rest);
      assert body == [body[0]] + body[1..];
      DollarStep(body[0], body[1..], tag, rest);
    }
  }

  /** A character inside a dollar-quoted literal. */
  lemma OneInside(c: char, more: string, s: string, tag: string)
    requires s == [c] + more && |tag| > 1 && !(tag <= s)
    ensures Cut(s, Quoted(tag)) == 1 + Cut(more, Quoted(tag))
  {
    CutOver([c], more, Quoted(tag), Quoted(tag));
  }

  lemma NotAtTheFront(body: string, tag: string, rest: string)
    requires body != "" && !OccursAt(tag, body + tag, 0)
    ensures !(tag <= body + (tag + rest))
  {
    assert (body + (tag + rest))[..|tag|] == (body + tag)[..|tag|];
  }

  lemma NoneInTheOpenTail(body: string, tag: string)
    requires body != "" && forall i | 0 <= i <= |body| :: !OccursAt(tag, body, i)
    ensures forall i | 0 <= i < |body| :: !OccursAt(tag, body[1..], i)
  {
    forall i | 0 <= i < |body|
      ensures !OccursAt(tag, body[1..], i)
    {
      if i + |tag| <= |body| - 1 {
        TailSlice(body, i, |tag|);
        assert !OccursAt(tag, body, i + 1);
      }
    }
  }

  lemma {:induction false} OpenDollarIsRead(body: string, tag: string)
    requires IsTag(tag) && forall i | 0 <= i <= |body| :: !OccursAt(tag, body, i)
    ensures Cut(body, Quoted(tag)) == |body|
  {
    if body != "" {
      NoneInTheOpenTail(body, tag);
      OpenDollarIsRead(body[1..], tag);
      assert !OccursAt(tag, body, 0);
      OneInside(body[0], body[1..], body, tag);
    }
  }

  lemma OrdinaryIsRead(c: char, rest: string)
    requires Fits(Ordinary(c), rest)
    ensures Cut([c] + rest, Top) == 1 + Cut(rest, Top)
  {
    var s := [c] + rest;
    if Tag(s) > 0 {
      TagIsTag(s);
    }
    CutOver([c], rest, Top, Top);
  }

  lemma QuotedIsRead(q: char, text: string, after: string)
    requires q == '\'' || q == '"'
    requires after == "" || (after[0] == q && (|after| > 1 ==> after[1] != q))
    ensures Cut([q] + (Doubled(text, q) + after), Top)
         == 1 + |Doubled(text, q)| + if after == "" then 0 else 1 + Cut(after[1..], Top)
  {
    CutOver([q], Doubled(text, q) + after, Top, Quoted([q]));
    LiteralIsRead(text, q, after);
  }

  lemma TaggedIsRead(tag: string, inside: string)
    requires IsTag(tag)
    ensures Cut(tag + inside, Top) == |tag| + Cut(inside, Quoted(tag))
  {
    var s := tag + inside;
    assert s[..|tag|] == tag;
    TagIsRead(s, |tag|);
    CutOver(tag, inside, Top, Quoted(tag));
  }

  lemma LiteralToken(q: char, text: string, rest: string)
    requires Fits(Literal(q, text), rest)
    ensures Cut(Written(Literal(q, text)) + rest, Top) == |Written(Literal(q, text))| + Cut(rest, Top)
  {
    var inside := Doubled(text, q);
    assert [q] + inside + [q] + rest == [q] + (inside + ([q] + rest));
    assert ([q] + rest)[1..] == rest;
    QuotedIsRead(q, text, [q] + rest);
  }

  lemma DollarToken(tag: string, body: string, rest: string)
    requires Fits(Dollar(tag, body), rest)
    ensures Cut(Written(Dollar(tag, body)) + rest, Top) == |Written(Dollar(tag, body))| + Cut(rest, Top)
  {
    assert tag + body + tag + rest == tag + (body + (tag + rest));
    TaggedIsRead(tag, body + (tag + rest));
    DollarIsRead(body, tag, rest);
  }

  lemma OpenToken(t: Token, rest: string)
    requires Fits(t, rest) && (t.OpenLiteral? || t.OpenDollar?)
    ensures Cut(Written(t) + rest, Top) == |Written(t)| && rest == ""
  {
    assert Written(t) + "" == Written(t);
    match t
    case OpenLiteral(q, text) =>
      assert [q] + Doubled(text, q) == [q] + (Doubled(text, q) + "");
      QuotedIsRead(q, text, "");
    case OpenDollar(tag, body) =>
      TaggedIsRead(tag, body);
      OpenDollarIsRead(body, tag);
  }

  /** No ';' inside a token is a cut. */
  lemma TokenIsRead(t: Token, rest: string)
    requires Fits(t, rest) && !t.Semicolon?
    ensures Cut(Written(t) + rest, Top) == |Written(t)| + Cut(rest, Top)
  {
    match t
    case Ordinary(c) => OrdinaryIsRead(c, rest);
    case Literal(q, text) => LiteralToken(q, text, rest);
    case Dollar(tag, body) => DollarToken(tag, body, rest);
    case OpenLiteral(_, _) => OpenToken(t, rest);
    case OpenDollar(_, _) => OpenToken(t, rest);
  }

  // ── The pieces are cut at the semicolons ──────────────────────────────────────

  lemma SumSlices(head: string, rest: string, k: nat)
    requires k < |rest|
    ensures (head + rest)[..|head| + k] == head + rest[..k] && (head + rest)[|head| + k + 1..] == rest[k + 1..]
  {
  }

  lemma PiecesOfSum(buf: string, head: string, rest: string, k: nat)
    requires k <= |rest|
    ensures PiecesAt(buf, head + rest, |head| + k) == PiecesAt(buf + head, rest, k)
  {
    if k < |rest| {
      SumSlices(head, rest, k);
      Assoc(buf, head, rest[..k]);
    } else {
      Assoc(buf, head, rest);
    }
  }

  lemma OnwardIs(buf: string, s: string, k: nat, pieces: seq<string>)
    requires k == Cut(s, Top) && pieces == PiecesAt(buf, s, k)
    ensures Onward(buf, s, Top) == pieces
  {
  }

  /** What is read without a cut joins what was read before it. */
  lemma OnwardOver(buf: string, head: string, rest: string, k: nat, n: nat)
    requires k == Cut(rest, Top) && n == |head| + k && n == Cut(head + rest, Top)
    ensures Onward(buf, head + rest, Top) == Onward(buf + head, rest, Top)
  {
    PiecesOfSum(buf, head, rest, k);
    OnwardIs(buf, head + rest, n, PiecesAt(buf + head, rest, k));
  }

  lemma OnwardAtSemicolon(buf: string, rest: string)
    ensures Onward(buf, ";" + rest, Top) == [buf] + Onward("", rest, Top)
  {
    var s := ";" + rest;
    assert Turn(s, Top).size == 0 && Cut(s, Top) == 0;
    assert s[..0] == "" && s[1..] == rest && buf + "" == buf;
    OnwardAtStart(rest);
  }

  lemma OnwardAtTheEnd(buf: string)
    ensures Onward(buf, "", Top) == [buf]
  {
    assert buf + "" == buf;
  }

  /** The pieces with what was read before them in front of the first. */
  function Behind(buf: string, pieces: seq<string>): seq<string>
    requires pieces != []
  {
    [buf + pieces[0]] + pieces[1..]
  }

  lemma BehindJoins(buf: string, head: string, pieces: seq<string>)
    requires pieces != []
    ensures Behind(buf + head, pieces) == Behind(buf, Behind(head, pieces))
  {
    var inner := Behind(head, pieces);
    assert inner[0] == head + pieces[0] && inner[1..] == pieces[1..];
    assert buf + head + pieces[0] == buf + (head + pieces[0]);
  }

  lemma BehindNothing(pieces: seq<string>)
    requires pieces != []
    ensures Behind("", pieces) == pieces
  {
    assert "" + pieces[0] == pieces[0];
  }

  lemma {:induction false} CutFrom(buf: string, ts: seq<Token>)
    requires Legal(ts)
    ensures Onward(buf, Text(ts), Top) == Behind(buf, Pieces(ts))
    decreases |ts|
  {
    if ts == [] {
      OnwardAtTheEnd(buf);
      assert buf + "" == buf;
    } else {
      var t, rest, pieces := ts[0], Text(ts[1..]), Pieces(ts[1..]);
      if t.Semicolon? {
        OnwardAtSemicolon(buf, rest);
        CutFrom("", ts[1..]);
        BehindNothing(pieces);
        assert buf + "" == buf && ([""] + pieces)[1..] == pieces;
      } else {
        TokenIsRead(t, rest);
        OnwardOver(buf, Written(t), rest, Cut(rest, Top), |Written(t)| + Cut(rest, Top));
        CutFrom(buf + Written(t), ts[1..]);
        BehindJoins(buf, Written(t), pieces);
      }
    }
  }

  /** A text is cut at exactly the semicolons among its tokens. */
  lemma CutAtTheSemicolons(ts: seq<Token>)
    requires Legal(ts)
    ensures Raw(Text(ts)) == Pieces(ts)
  {
    OnwardAtStart(Text(ts));
    CutFrom("", ts);
    BehindNothing(Pieces(ts));
  }

  // ── The statements ────────────────────────────────────────────────────────────

  function NonBlank(pieces: seq<string>): nat {
    if pieces == [] then 0 else NonBlank(pieces[..|pieces| - 1]) + if Blank(pieces[|pieces| - 1]) then 0 else 1
  }

  lemma {:induction false} StatementsConcat(a: seq<string>, b: seq<string>)
    ensures Statements(a + b) == Statements(a) + Statements(b)
  {
    if a == [] {
      assert a + b == b;
    } else {
      assert (a + b)[1..] == a[1..] + b;
      StatementsConcat(a[1..], b);
    }
  }

  lemma StatementOfOne(piece: string)
    ensures Statements([piece]) == if Blank(piece) then [] else [Trim(piece)]
  {
    TrimIsEmptyIffBlank(piece);
    assert [piece][1..] == [];
  }

  /** Each piece that is not blank is a statement, trimmed, after those of the pieces before it. */
  lemma {:induction false} StatementsAreThePieces(pieces: seq<string>, i: nat)
    requires i <= |pieces|
    ensures |Statements(pieces)| == NonBlank(pieces)
    ensures NonBlank(pieces[..i]) <= NonBlank(pieces)
    ensures i < |pieces| && !Blank(pieces[i]) ==>
              NonBlank(pieces[..i]) < NonBlank(pieces) && Statements(pieces)[NonBlank(pieces[..i])] == Trim(pieces[i])
    decreases |pieces|
  {
    if pieces == [] {
      return;
    }
    var n := |pieces| - 1;
    var before := pieces[..n];
    assert pieces == before + [pieces[n]];
    StatementsConcat(before, [pieces[n]]);
    StatementOfOne(pieces[n]);
    StatementsAreThePieces(before, if i < n then i else n);
    if i < n {
      assert before[..i] == pieces[..i];
    } else if i == n {
      assert before[..n] == before;
    } else {
      assert pieces[..i] == pieces;
    }
  }

  /** The statements of a text: for its tokens, the trimmed texts between the semicolons that
      are not blank. */
  lemma SplitByTokens(sql: string) returns (ts: seq<Token>)
    ensures Legal(ts) && Text(ts) == sql
    ensures |Split(sql)| == NonBlank(Pieces(ts))
    ensures forall i | 0 <= i < |Pieces(ts)| && !Blank(Pieces(ts)[i]) ::
              NonBlank(Pieces(ts)[..i]) < |Split(sql)| && Split(sql)[NonBlank(Pieces(ts)[..i])] == Trim(Pieces(ts)[i])
  {
    ts := EveryTextIsTokens(sql);
    CutAtTheSemicolons(ts);
    var pieces := Pieces(ts);
    StatementsAreThePieces(pieces, 0);
    forall i | 0 <= i < |pieces| && !Blank(pieces[i])
      ensures NonBlank(pieces[..i]) < |Split(sql)| && Split(sql)[NonBlank(pieces[..i])] == Trim(pieces[i])
    {
      StatementsAreThePieces(pieces, i);
    }
  }

  // ── Plain texts and single literals ───────────────────────────────────────────

  predicate IsPlain(s: string) {
    forall i | 0 <= i < |s| :: s[i] != '\'' && s[i] != '"' && s[i] != '$'
  }

  predicate NoSemicolon(s: string) {
    forall i | 0 <= i < |s| :: s[i] != ';'
  }

  lemma {:induction false} PlainTokens(s: string) returns (ts: seq<Token>)
    requires IsPlain(s)
    ensures Legal(ts) && Text(ts) == s && Pieces(ts) == Segments.Split(s, ';')
  {
    if s == "" {
      ts := [];
    } else {
      var more := PlainTokens(s[1..]);
      ts := [if s[0] == ';' then Semicolon else Ordinary(s[0])] + more;
      assert ts[1..] == more && s == [s[0]] + s[1..];
    }
  }

  /** Without quotes and dollar signs a text is cut at every semicolon. */
  lemma PlainIsCutEverywhere(s: string)
    requires IsPlain(s)
    ensures Raw(s) == Segments.Split(s, ';')
  {
    var ts := PlainTokens(s);
    CutAtTheSemicolons(ts);
  }

  lemma {:induction false} PlainIsRead(p: string, rest: string)
    requires IsPlain(p) && NoSemicolon(p)
    ensures Cut(p + rest, Top) == |p| + Cut(rest, Top)
  {
    if p == "" {
      assert p + rest == rest;
    } else {
      assert p + rest == [p[0]] + (p[1..] + rest);
      PlainIsRead(p[1..], rest);
      OrdinaryIsRead(p[0], p[1..] + rest);
    }
  }

  /** A quoted text with semicolons in it is one piece with what stands around it. */
  lemma LiteralIsOnePiece(before: string, t: Token, after: string)
    requires IsPlain(before) && IsPlain(after) && NoSemicolon(before) && NoSemicolon(after)
    requires (t.Literal? || t.Dollar?) && Fits(t, after)
    ensures Raw(before + (Written(t) + after)) == [before + (Written(t) + after)]
  {
    PlainIsRead(before, Written(t) + after);
    TokenIsRead(t, after);
    PlainIsRead(after, "");
    assert after + "" == after;
  }

  /** A semicolon in a string literal is no cut. */
  lemma StringKeepsItsSemicolon()
    ensures Split("values ('a;b')") == ["values ('a;b')"]
  {
    LiteralOfThree('\'', 'a', ';', 'b');
    OnePieceIsOneStatement("values (", Literal('\'', "a;b"), ")", "values ('a;b')");
  }

  lemma OnePieceIsOneStatement(before: string, t: Token, after: string, whole: string)
    requires IsPlain(before) && IsPlain(after) && NoSemicolon(before) && NoSemicolon(after)
    requires (t.Literal? || t.Dollar?) && Fits(t, after) && whole == before + (Written(t) + after)
    requires whole != "" && !IsSpace(whole[0]) && !IsSpace(whole[|whole| - 1])
    ensures Split(whole) == [whole]
  {
    LiteralIsOnePiece(before, t, after);
    StatementOfOne(whole);
    TrimmedStays(whole);
  }

  lemma LiteralOfThree(q: char, a: char, b: char, c: char)
    requires a != q && b != q && c != q
    ensures Written(Literal(q, [a, b, c])) == [q, a, b, c, q]
  {
    assert [a, b, c][1..] == [b, c] && [b, c][1..] == [c] && [c][1..] == [];
    assert Doubled("", q) == "" && Doubled([c], q) == [c] && Doubled([b, c], q) == [b, c];
  }

  lemma TrimmedStays(s: string)
    requires s != "" && !IsSpace(s[0]) && !IsSpace(s[|s| - 1])
    ensures Trim(s) == s && !Blank(s)
  {
    assert s[0] in s;
  }
}
