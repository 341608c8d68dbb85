/** Splitting SQL into statements (backend/src/custom-tools/custom-tool.factory.ts, splitStatements). */
module SqlSplit {
  import opened Collections
  import opened JsText

  /** Outside quotes, or inside a quote that `q` closes: "'", "\"" or a dollar tag. */
  datatype Mode = Top | Quoted(q: string)

  datatype Move = Move(size: nat, next: Mode)

  predicate WordChar(c: char) {
    'A' <= c <= 'Z' || 'a' <= c <= 'z' || '0' <= c <= '9' || c == '_'
  }

  function WordLen(s: string): (n: nat)
    ensures n <= |s|
  {
    if s != [] && WordChar(s[0]) then 1 + WordLen(s[1..]) else 0
  }

  /** Length of the match of /^\$[A-Za-z0-9_]*\$/, 0 when there is none. */
  function Tag(s: string): (n: nat)
    ensures n <= |s| && n != 1
  {
    if s == [] || s[0] != '$' then 0
    else
      var k := WordLen(s[1..]);
      if 1 + k < |s| && s[1 + k] == '$' then k + 2 else 0
  }

  /** How many characters one turn of the loop takes, and the mode after it; none at a top-level ';'. */
  function Turn(s: string, m: Mode): (r: Move)
    requires s != []
    ensures r.size <= |s| && (r.size == 0 ==> m.Top? && r.next.Top? && s[0] == ';')
  {
    match m
    case Quoted(q) =>
      if |q| == 1 && s[0] == q[0] then
        if |s| > 1 && s[1] == q[0] then Move(2, m) else Move(1, Top)
      else if |q| > 1 && q <= s then Move(|q|, Top)
      else Move(1, m)
    case Top =>
      if s[0] == '\'' || s[0] == '"' then Move(1, Quoted([s[0]]))
      else if Tag(s) > 0 then Move(Tag(s), Quoted(s[..Tag(s)]))
      else if s[0] == ';' then Move(0, Top)
      else Move(1, Top)
  }

  /** The characters before the first top-level ';', or all of them. */
  function Cut(s: string, m: Mode): (n: nat)
    ensures n <= |s|
    decreases |s|
  {
    if s == [] || Turn(s, m).size == 0 then 0
    else var t := Turn(s, m); t.size + Cut(s[t.size..], t.next)
  }

  /** The mode at that point. */
  function Final(s: string, m: Mode): Mode
    decreases |s|
  {
    if s == [] || Turn(s, m).size == 0 then m
    else var t := Turn(s, m); Final(s[t.size..], t.next)
  }

  /** The text between top-level semicolons. */
  function Raw(s: string): seq<string>
    decreases |s|
  {
    var k := Cut(s, Top);
    if k < |s| then [s[..k]] + Raw(s[k + 1..]) else [s]
  }

  /** The statement a finished piece gives, if any. */
  function Kept(buf: string): seq<string> {
    if Trim(buf) == "" then [] else [Trim(buf)]
  }

  /** What is kept of the pieces: trimmed, blank ones dropped. */
  function Statements(pieces: seq<string>): seq<string> {
    if pieces == [] then []
    else Kept(pieces[0]) + Statements(pieces[1..])
  }

  function Split(sql: string): seq<string> {
    Statements(Raw(sql))
  }

  function JoinSemi(pieces: seq<string>): string {
    if pieces == [] then ""
    else if |pieces| == 1 then pieces[0]
    else pieces[0] + ";" + JoinSemi(pieces[1..])
  }

  // ── The loop computes Split ───────────────────────────────────────────────────

  /** The pieces when the current one is `buf` and the first `k` characters of `s`. */
  function PiecesAt(buf: string, s: string, k: nat): seq<string>
    requires k <= |s|
  {
    if k < |s| then [buf + s[..k]] + Raw(s[k + 1..]) else [buf + s]
  }

  /** The pieces when `buf` was read of the current one and `s` is still to be read. */
  function Onward(buf: string, s: string, m: Mode): seq<string> {
    PiecesAt(buf, s, Cut(s, m))
  }

  lemma Regroup(buf: string, s: string, n: nat, k: nat)
    requires n + k <= |s|
    ensures PiecesAt(buf, s, n + k) == PiecesAt(buf + s[..n], s[n..], k)
  {
    assert s[..n + k] == s[..n] + s[n..][..k];
    assert s == s[..n] + s[n..];
    if n + k < |s| {
      assert s[n..][k + 1..] == s[n + k + 1..];
      assert buf + s[..n + k] == buf + s[..n] + s[n..][..k];
    } else {
      assert buf + s == buf + s[..n] + s[n..];
    }
  }

  /** One turn of the scan. */
  lemma CutTurn(s: string, m: Mode, t: Move)
    requires s != [] && t == Turn(s, m) && t.size > 0
    ensures Cut(s, m) == t.size + Cut(s[t.size..], t.next)
  {
  }

  lemma FinalTurn(s: string, m: Mode, t: Move)
    requires s != [] && t == Turn(s, m) && t.size > 0
    ensures Final(s, m) == Final(s[t.size..], t.next)
  {
  }

  lemma OnwardTurn(buf: string, s: string, m: Mode, t: Move)
    requires s != [] && t == Turn(s, m) && t.size > 0
    ensures Onward(buf, s, m) == Onward(buf + s[..t.size], s[t.size..], t.next)
  {
    CutTurn(s, m, t);
    OnwardShift(buf, s, m, t.size, t.next);
  }

  lemma OnwardShift(buf: string, s: string, m: Mode, n: nat, next: Mode)
    requires n <= |s| && Cut(s, m) == n + Cut(s[n..], next)
    ensures Onward(buf, s, m) == Onward(buf + s[..n], s[n..], next)
  {
    Regroup(buf, s, n, Cut(s[n..], next));
  }

  lemma OnwardAtStart(s: string)
    ensures Onward("", s, Top) == Raw(s)
  {
    var k := Cut(s, Top);
    assert "" + s[..k] == s[..k] && "" + s == s;
  }

  /** A top-level ';' ends the piece read so far. */
  lemma OnwardAtSemi(buf: string, s: string)
    requires s != [] && Turn(s, Top).size == 0
    ensures Statements(Onward(buf, s, Top)) == Kept(buf) + Statements(Onward("", s[1..], Top))
  {
    OnwardAtStart(s[1..]);
    assert s[0 + 1..] == s[1..] && buf + s[..0] == buf;
    assert Onward(buf, s, Top) == [buf] + Raw(s[1..]);
    assert ([buf] + Raw(s[1..]))[1..] == Raw(s[1..]);
  }

  /** The statements still to come when `buf` was read of the current one and `s` is unread. */
  function Todo(buf: string, s: string, m: Mode): seq<string>
    decreases |s|
  {
    if s == [] then Kept(buf)
    else
      var t := Turn(s, m);
      if t.size == 0 then Kept(buf) + Todo("", s[1..], Top) else Todo(buf + s[..t.size], s[t.size..], t.next)
  }

  method SplitStatements(sql: string) returns (out: seq<string>)
    ensures out == Split(sql)
  {
    TodoAtStart(sql);
    out := [];
    var buf, i, quote := "", 0, Top;
    ghost var rest := sql;
    while i < |sql|
      invariant 0 <= i <= |sql| && rest == sql[i..]
      invariant out + Todo(buf, rest, quote) == Split(sql)
      decreases |sql| - i
    {
      var n;
      out, buf, quote, n := TakeTurn(out, buf, sql[i..], quote);
      DropTwice(sql, i, n);
      i, rest := i + n, rest[n..];
    }
    TodoAtEnd(buf, rest, quote);
    out := Push(out, buf);
  }

  lemma DropTwice(s: string, i: nat, n: nat)
    requires i + n <= |s|
    ensures s[i..][n..] == s[i + n..]
  {
  }

  lemma TodoAtEnd(buf: string, rest: string, m: Mode)
    requires rest == ""
    ensures Todo(buf, rest, m) == Kept(buf)
  {
  }

  /** One turn of the loop on the unread text. */
  method TakeTurn(found: seq<string>, read: string, s: string, mode: Mode)
      returns (out: seq<string>, buf: string, quote: Mode, n: nat)
    requires s != []
    ensures 0 < n <= |s| && out + Todo(buf, s[n..], quote) == found + Todo(read, s, mode)
  {
    var t := Turn(s, mode);
    TodoStep(found, read, s, mode, t);
    if t.size == 0 {
      return Push(found, read), "", Top, 1;
    }
    return found, read + s[..t.size], t.next, t.size;
  }

  lemma TodoStep(out: seq<string>, buf: string, s: string, m: Mode, t: Move)
    requires s != [] && t == Turn(s, m)
    ensures out + Todo(buf, s, m)
         == if t.size == 0 then Push(out, buf) + Todo("", s[1..], Top)
            else out + Todo(buf + s[..t.size], s[t.size..], t.next)
  {
    Assoc(out, Kept(buf), Todo("", s[1..], Top));
  }

  lemma TodoAtStart(sql: string)
    ensures [] + Todo("", sql, Top) == Split(sql)
  {
    TodoIsOnward("", sql, Top);
    OnwardAtStart(sql);
  }

  /** What the loop still finds is what splitting the unread text gives. */
  lemma {:induction false} TodoIsOnward(buf: string, s: string, m: Mode)
    ensures Todo(buf, s, m) == Statements(Onward(buf, s, m))
    decreases |s|
  {
    if s == [] {
      OnwardAtEnd(buf, m);
    } else if Turn(s, m).size == 0 {
      TodoIsOnward("", s[1..], Top);
      OnwardAtSemi(buf, s);
    } else {
      var t := Turn(s, m);
      TodoIsOnward(buf + s[..t.size], s[t.size..], t.next);
      OnwardTurn(buf, s, m, t);
    }
  }

  lemma OnwardAtEnd(buf: string, m: Mode)
    ensures Statements(Onward(buf, "", m)) == Kept(buf)
  {
    assert buf + "" == buf;
    assert Onward(buf, "", m) == [buf] && [buf][1..] == [];
    assert Statements([buf]) == Kept(buf) + Statements([]);
  }

  /** `if (buf.trim()) out.push(buf.trim())` */
  function Push(out: seq<string>, buf: string): (r: seq<string>)
    ensures r == out + Kept(buf)
  {
    if Trim(buf) != "" then out + [Trim(buf)] else out
  }

  // ── Scanning a text in two parts ──────────────────────────────────────────────

  predicate Neutral(c: char) {
    c == ';' || IsSpace(c)
  }

  predicate Sound(m: Mode) {
    m.Quoted? ==> m.q != [] && forall c <- m.q :: !Neutral(c)
  }

  /** A part that ends where nothing of the next part can belong to a token of it. */
  predicate Seam(t: string) {
    t == [] || Neutral(t[0])
  }

  lemma {:induction false} WordLenSeam(p: string, t: string)
    requires Seam(t)
    ensures WordLen(p + t) == WordLen(p)
  {
    if p == [] {
      assert p + t == t;
    } else {
      assert (p + t)[1..] == p[1..] + t;
      WordLenSeam(p[1..], t);
    }
  }

  lemma {:induction false} WordsAreNotNeutral(s: string)
    ensures forall i | 0 <= i < WordLen(s) :: !Neutral(s[i])
  {
    if s != [] && WordChar(s[0]) {
      WordsAreNotNeutral(s[1..]);
    }
  }

  lemma TagSeam(p: string, t: string)
    requires Seam(t) && p != []
    ensures Tag(p + t) == Tag(p)
    ensures forall i | 0 <= i < Tag(p) :: !Neutral(p[i])
  {
    assert (p + t)[1..] == p[1..] + t;
    WordLenSeam(p[1..], t);
    WordsAreNotNeutral(p[1..]);
  }

  lemma PrefixSeam(q: string, p: string, t: string)
    requires Seam(t) && forall c <- q :: !Neutral(c)
    ensures q <= p + t <==> q <= p
  {
    if |q| > |p| && t != [] {
      assert (p + t)[|p|] == t[0] && q[|p|] in q;
    }
  }

  lemma TurnSeam(p: string, t: string, m: Mode)
    requires Seam(t) && p != [] && Sound(m)
    ensures Turn(p + t, m) == Turn(p, m) && Sound(Turn(p, m).next)
  {
    TagSeam(p, t);
    if m.Quoted? {
      PrefixSeam(m.q, p, t);
    }
    assert p[..Tag(p)] == (p + t)[..Tag(p)];
  }

  lemma DropInConcat(p: string, t: string, n: nat)
    requires n <= |p|
    ensures (p + t)[n..] == p[n..] + t
  {
  }

  /** A text without a top-level ';' is scanned by itself, then the next part from its final mode. */
  lemma {:induction false} ScanConcat(p: string, t: string, m: Mode)
    requires Seam(t) && Sound(m) && Cut(p, m) == |p|
    ensures Cut(p + t, m) == |p| + Cut(t, Final(p, m)) && Final(p + t, m) == Final(t, Final(p, m))
    ensures Sound(Final(p, m))
    decreases |p|
  {
    if p == [] {
      assert p + t == t;
    } else {
      TurnSeam(p, t, m);
      var u := Turn(p, m);
      CutTurn(p, m, u);
      CutTurn(p + t, m, u);
      FinalTurn(p, m, u);
      FinalTurn(p + t, m, u);
      DropInConcat(p, t, u.size);
      ScanConcat(p[u.size..], t, u.next);
    }
  }

  /** A scan that reaches the seam has scanned the first part. */
  lemma {:induction false} ScanFirst(p: string, t: string, m: Mode)
    requires Seam(t) && Sound(m) && Cut(p + t, m) >= |p|
    ensures Cut(p, m) == |p|
    decreases |p|
  {
    if p != [] {
      TurnSeam(p, t, m);
      var u := Turn(p, m);
      CutTurn(p + t, m, u);
      DropInConcat(p, t, u.size);
      ScanFirst(p[u.size..], t, u.next);
    }
  }

  lemma {:induction false} ScanBlank(t: string, m: Mode)
    requires Blank(t) && Sound(m)
    ensures Cut(t, m) == |t| && Final(t, m) == m
  {
    if t != [] {
      assert IsSpace(t[0]) && Neutral(t[0]);
      assert m.Quoted? ==> m.q[0] != t[0];
      assert Turn(t, m) == Move(1, m);
      ScanBlank(t[1..], m);
    }
  }

  // ── What the pieces and the statements are ────────────────────────────────────

  /** No top-level ';'. */
  predicate TopFree(p: string) {
    Cut(p, Top) == |p|
  }

  /** Besides, every quote is closed. */
  predicate Closed(p: string) {
    TopFree(p) && Final(p, Top) == Top
  }

  /** No piece has a top-level ';' and only the last may leave a quote open. */
  predicate WellCut(pieces: seq<string>) {
    pieces == [] || (TopFree(pieces[0]) && (|pieces| > 1 ==> Closed(pieces[0])) && WellCut(pieces[1..]))
  }

  lemma {:induction false} FinalAtCut(s: string, m: Mode)
    requires Cut(s, m) < |s|
    ensures s[Cut(s, m)] == ';' && Final(s, m) == Top
    decreases |s|
  {
    if Turn(s, m).size > 0 {
      var u := Turn(s, m);
      FinalAtCut(s[u.size..], u.next);
    }
  }

  lemma PieceIsClosed(p: string, rest: string)
    requires Cut(p + (";" + rest), Top) == |p|
    ensures Closed(p)
  {
    var t := ";" + rest;
    ScanFirst(p, t, Top);
    ScanConcat(p, t, Top);
    assert Cut(t, Final(p, Top)) == 0;
  }

  lemma PutPiece(p: string, pieces: seq<string>)
    requires pieces != [] && Closed(p) && WellCut(pieces)
    ensures WellCut([p] + pieces) && JoinSemi([p] + pieces) == p + ";" + JoinSemi(pieces)
  {
    assert ([p] + pieces)[1..] == pieces;
  }

  lemma AtSemi(s: string, k: nat)
    requires k < |s| && s[k] == ';'
    ensures s == s[..k] + (";" + s[k + 1..]) == s[..k] + ";" + s[k + 1..]
  {
  }

  /** The pieces joined by ';' are the input, so nothing is lost but what trimming drops. */
  lemma {:induction false} RawIsLossless(s: string)
    ensures JoinSemi(Raw(s)) == s && WellCut(Raw(s)) && Raw(s) != []
    decreases |s|
  {
    var k := Cut(s, Top);
    if k < |s| {
      var p, rest := s[..k], s[k + 1..];
      FinalAtCut(s, Top);
      AtSemi(s, k);
      PieceIsClosed(p, rest);
      RawIsLossless(rest);
      PutPiece(p, Raw(rest));
    } else {
      assert Raw(s)[1..] == [];
    }
  }

  lemma {:induction false} RawOfJoin(pieces: seq<string>)
    requires WellCut(pieces) && pieces != []
    ensures Raw(JoinSemi(pieces)) == pieces
  {
    if |pieces| > 1 {
      var p, t := pieces[0], ";" + JoinSemi(pieces[1..]);
      assert JoinSemi(pieces) == p + t;
      ScanConcat(p, t, Top);
      assert (p + t)[..|p|] == p && (p + t)[|p| + 1..] == JoinSemi(pieces[1..]);
      RawOfJoin(pieces[1..]);
      assert pieces == [p] + pieces[1..];
    }
  }

  lemma TrimKeepsCut(p: string)
    requires TopFree(p)
    ensures TopFree(Trim(p)) && (Closed(p) ==> Closed(Trim(p)))
  {
    var lead, tail := TrimParts(p);
    var x := Trim(p);
    ScanBlank(lead, Top);
    assert p == lead + (x + tail);
    if x == [] {
      return;
    }
    LeadScan(lead, x + tail);
    assert Seam(tail);
    ScanFirst(x, tail, Top);
    ScanConcat(x, tail, Top);
    ScanBlank(tail, Final(x, Top));
  }

  /** Leading whitespace is read at top level. */
  lemma {:induction false} LeadScan(lead: string, rest: string)
    requires Blank(lead)
    ensures Cut(lead + rest, Top) == |lead| + Cut(rest, Top) && Final(lead + rest, Top) == Final(rest, Top)
  {
    if lead == [] {
      assert lead + rest == rest;
    } else {
      var s := lead + rest;
      assert IsSpace(s[0]) && s[1..] == lead[1..] + rest;
      assert Turn(s, Top) == Move(1, Top);
      LeadScan(lead[1..], rest);
    }
  }

  lemma {:induction false} StatementsAreWellCut(pieces: seq<string>)
    requires WellCut(pieces)
    ensures var out := Statements(pieces);
            && WellCut(out) && Statements(out) == out
            && (forall k | 0 <= k < |out| :: out[k] != "" && Trimmed(out[k]) && TopFree(out[k]))
  {
    if pieces != [] {
      var p, rest := pieces[0], Statements(pieces[1..]);
      StatementsAreWellCut(pieces[1..]);
      TrimKeepsCut(p);
      var out := Statements(pieces);
      if Trim(p) != "" {
        assert out == [Trim(p)] + rest && out[1..] == rest;
        TrimOfTrimmed(Trim(p));
        assert rest != [] ==> |pieces| > 1;
      } else {
        assert out == rest;
      }
    }
  }

  /** The statements are trimmed and not empty, none holds a top-level ';', the pieces they are
      trimmed from give the input back when joined, and splitting the joined statements gives
      the same list. */
  lemma SplitIsLosslessAndStable(sql: string)
    ensures JoinSemi(Raw(sql)) == sql && Split(sql) == Statements(Raw(sql))
    ensures forall k | 0 <= k < |Split(sql)| :: Split(sql)[k] != "" && Trimmed(Split(sql)[k]) && TopFree(Split(sql)[k])
    ensures Split(JoinSemi(Split(sql))) == Split(sql)
  {
    RawIsLossless(sql);
    StatementsAreWellCut(Raw(sql));
    if Split(sql) != [] {
      RawOfJoin(Split(sql));
    } else {
      assert Raw("") == [""] && Statements([""]) == Statements([""][1..]);
    }
  }
}
