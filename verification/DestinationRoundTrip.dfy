/** When a destination survives being written as a URL and read back. */
module DestinationRoundTrip {
  import opened DestinationUrl
  import opened JsText
  import opened Options
  import opened Segments

  /** What reading back should give. */
  function Normal(d: Destination): Parsed {
    Parsed(d.kind, Trim(d.host), if d.port == 0 then None else Some(d.port),
           if d.kind == Smb then TrimSlashes(d.share) else "", TrimSlashes(d.path),
           if d.kind == Smb then Trim(d.domain) else "", d.username, d.password, d.kind == Webdav && d.secure)
  }

  /** A host the URL parser takes as it is. */
  predicate PlainHost(host: string) {
    host != "" && forall c | c in host :: ' ' < c <= '~' && c !in FORBIDDEN_IN_HOST
  }

  predicate UserSurvives(d: Destination) {
    ';' !in Domain(d) && ';' !in d.username
  }

  predicate PathSurvives(d: Destination) {
    var path := TrimSlashes(d.path);
    && (path == "" || AllProper(Split(path, '/')))
    && (d.kind == Smb ==> if Share(d) == "" then path == "" else Proper(Share(d)) && '/' !in Share(d))
  }

  lemma DestinationPathReadsBackIff(d: Destination)
    ensures ShareAndPath(d.kind, Surviving(RawSegs(d))) == (Share(d), TrimSlashes(d.path)) <==> PathSurvives(d)
  {
    var path := TrimSlashes(d.path);
    if d.kind == Smb {
      ShareReadsBackIff(Share(d), path);
    } else {
      PathReadsBackIff(path);
      assert RawSegs(d) == SegsOf(path);
    }
  }

  // ---- What trimming leaves

  predicate AllSlashes(s: string) {
    forall c | c in s :: c == '/'
  }

  predicate NoEndSlash(s: string) {
    s != "" ==> s[0] != '/' && s[|s| - 1] != '/'
  }

  lemma {:induction false} DropSlashesEffect(s: string) returns (lead: string)
    ensures s == lead + DropSlashes(s) && AllSlashes(lead)
    ensures DropSlashes(s) != "" ==> DropSlashes(s)[0] != '/'
  {
    if s != "" && s[0] == '/' {
      lead := DropSlashesEffect(s[1..]);
      lead := ['/'] + lead;
      assert s == ['/'] + s[1..];
    } else {
      lead := "";
    }
  }

  lemma {:induction false} DropEndSlashesEffect(s: string) returns (tail: string)
    ensures s == DropEndSlashes(s) + tail && AllSlashes(tail)
    ensures DropEndSlashes(s) != "" ==> DropEndSlashes(s)[|DropEndSlashes(s)| - 1] != '/'
  {
    if s != "" && s[|s| - 1] == '/' {
      tail := DropEndSlashesEffect(s[..|s| - 1]);
      tail := tail + ['/'];
      assert s == s[..|s| - 1] + ['/'];
    } else {
      tail := "";
    }
  }

  lemma EndsEffect(t: string) returns (lead: string, tail: string)
    ensures t == lead + DropEndSlashes(DropSlashes(t)) + tail && AllSlashes(lead) && AllSlashes(tail)
    ensures NoEndSlash(DropEndSlashes(DropSlashes(t)))
  {
    lead := DropSlashesEffect(t);
    var mid := DropSlashes(t);
    tail := DropEndSlashesEffect(mid);
    assert DropEndSlashes(mid) <= mid;
  }

  /** Only slashes at the ends of the trimmed text are dropped, and all of them. */
  lemma TrimSlashesEffect(s: string) returns (lead: string, tail: string)
    ensures Trim(s) == lead + TrimSlashes(s) + tail && AllSlashes(lead) && AllSlashes(tail) && NoEndSlash(TrimSlashes(s))
  {
    lead, tail := EndsEffect(Trim(s));
  }

  /** Writing a share or path again changes nothing exactly when dropping its slashes has not
      laid blanks bare. */
  lemma TrimSlashesIsStableIff(s: string)
    ensures TrimSlashes(TrimSlashes(s)) == TrimSlashes(s) <==> Trimmed(TrimSlashes(s))
  {
    var r := TrimSlashes(s);
    var lead, tail := TrimSlashesEffect(s);
    var lead', tail' := TrimSlashesEffect(r);
    var blankLead, blankTail := TrimParts(r);
    if Trimmed(r) {
      TrimOfTrimmed(r);
    } else {
      assert |Trim(r)| < |r| by {
        assert Trim(r) != r;
        assert blankLead == "" && blankTail == "" ==> r == Trim(r);
      }
    }
  }

  // ---- The user and its domain

  lemma {:induction false} SplitHead(s: string, c: char)
    ensures c !in Split(s, c)[0] && |Split(s, c)[0]| <= |s|
    ensures c in s ==> |Split(s, c)[0]| < |s|
    ensures |Split(s, c)| > 1 ==> c !in Split(s, c)[1]
  {
    if s != "" {
      SplitHead(s[1..], c);
    }
  }

  /** A domain and a user read back exactly when neither has a semicolon. */
  lemma UserReadsBackIff(d: Destination)
    ensures DomainAndUser(User(d)) == (Domain(d), d.username) <==> UserSurvives(d)
  {
    var user := User(d);
    SplitOne(user, ';');
    SplitHead(user, ';');
    if Domain(d) != "" {
      assert user == Domain(d) + [';'] + d.username;
      assert ';' in user by { assert user[|Domain(d)|] == ';'; }
      if ';' !in Domain(d) {
        SplitFirst(Domain(d), d.username, ';');
        SplitOne(d.username, ';');
        SplitHead(d.username, ';');
        if ';' !in d.username {
          SplitNone(d.username, ';');
        }
      }
    } else {
      assert user == d.username;
    }
  }

  // ---- The share and the path

  function SegsOf(text: string): seq<string> {
    if text == "" then [] else Split(text, '/')
  }

  /** The segments written, before they are encoded. */
  function RawSegs(d: Destination): seq<string> {
    SegsOf(Share(d)) + SegsOf(TrimSlashes(d.path))
  }

  /** What is left of the segments after the parser's dot removal and the empty-segment filter. */
  function Surviving(segs: seq<string>): seq<string> {
    NonEmpty(Walk(segs, [], RawDots))
  }

  lemma {:induction false} NonEmptyFrom(parts: seq<string>)
    ensures forall p | p in NonEmpty(parts) :: p in parts && p != ""
  {
    if parts != [] {
      NonEmptyFrom(parts[1..]);
    }
  }

  lemma {:induction false} WalkFrom(segs: seq<string>, done: seq<string>, dots: string -> nat)
    requires Apart(segs, '/') && Apart(done, '/')
    ensures Apart(Walk(segs, done, dots), '/')
    decreases |segs|
  {
    if segs != [] {
      var d := dots(segs[0]);
      var up, here := Up(done, d), Here(segs[0], d, |segs| == 1);
      WalkFrom(segs[1..], up + here, dots);
    }
  }

  lemma SurvivingAreApart(segs: seq<string>)
    requires Apart(segs, '/')
    ensures Apart(Surviving(segs), '/') && forall p | p in Surviving(segs) :: p != ""
  {
    WalkFrom(segs, [], RawDots);
    NonEmptyFrom(Walk(segs, [], RawDots));
  }

  lemma AllSurviveIff(segs: seq<string>)
    ensures |Surviving(segs)| <= |segs|
    ensures |Surviving(segs)| == |segs| <==> AllProper(segs)
    ensures AllProper(segs) ==> Surviving(segs) == segs
  {
    OthersVanish(segs, []);
    ProperCountFull(segs);
    if AllProper(segs) {
      ProperSurvive(segs, []);
      assert NonEmpty([]) + segs == segs;
    }
  }

  lemma SegsAreApart(text: string)
    ensures Apart(SegsOf(text), '/') && Join(SegsOf(text), '/') == text
  {
    if text != "" {
      SplitIsApart(text, '/');
      JoinOfSplit(text, '/');
    }
  }

  lemma JoinedBack(parts: seq<string>, text: string)
    requires Apart(parts, '/') && (forall p | p in parts :: p != "") && Join(parts, '/') == text
    ensures parts == SegsOf(text)
  {
    if parts != [] {
      SplitOfJoin(parts, '/');
      assert parts[0] in parts;
    }
  }

  /** A path alone reads back exactly when it is empty or all its segments are proper. */
  lemma PathReadsBackIff(path: string)
    ensures Join(Surviving(SegsOf(path)), '/') == path <==> AllProper(SegsOf(path))
  {
    var segs := SegsOf(path);
    SegsAreApart(path);
    SurvivingAreApart(segs);
    AllSurviveIff(segs);
    if Join(Surviving(segs), '/') == path {
      JoinedBack(Surviving(segs), path);
    }
  }

  predicate ShareFits(share: string, path: string) {
    if share == "" then path == "" else Proper(share) && '/' !in share && AllProper(SegsOf(path))
  }

  /** Share and path together, on an SMB destination. */
  lemma ShareReadsBackIff(share: string, path: string)
    ensures ShareAndPath(Smb, Surviving(SegsOf(share) + SegsOf(path))) == (share, path) <==> ShareFits(share, path)
  {
    var left := Surviving(SegsOf(share) + SegsOf(path));
    SegsAreApart(share);
    SegsAreApart(path);
    SurvivingAreApart(SegsOf(share) + SegsOf(path));
    if ShareAndPath(Smb, left) == (share, path) {
      SharePathForward(share, path, left);
    }
    if ShareFits(share, path) {
      SharePathBackward(share, path);
    }
  }

  lemma SharePathBackward(share: string, path: string)
    requires ShareFits(share, path)
    ensures ShareAndPath(Smb, Surviving(SegsOf(share) + SegsOf(path))) == (share, path)
  {
    var segs := SegsOf(share) + SegsOf(path);
    AllSurviveIff(segs);
    SegsAreApart(path);
    if share == "" {
      assert segs == [];
    } else {
      SplitNone(share, '/');
      assert segs == [share] + SegsOf(path);
      assert AllProper(segs) && segs[1..] == SegsOf(path);
    }
  }

  lemma SharePathForward(share: string, path: string, left: seq<string>)
    requires left == Surviving(SegsOf(share) + SegsOf(path))
    requires Apart(left, '/') && forall p | p in left :: p != ""
    requires ShareAndPath(Smb, left) == (share, path)
    ensures ShareFits(share, path)
  {
    if left != [] {
      assert left[0] in left;
      SplitNone(share, '/');
      assert forall p | p in left[1..] :: p in left;
      JoinedBack(left[1..], path);
      var segs := SegsOf(share) + SegsOf(path);
      AllSurviveIff(segs);
      assert left == segs;
      assert share in segs && forall p | p in SegsOf(path) :: p in segs;
    }
  }

  /** An SMB destination without a share does not keep its path: the path's first segment comes
      back as the share. */
  lemma MissingShareTakesThePath(path: string)
    requires path != "" && AllProper(SegsOf(path))
    ensures ShareAndPath(Smb, Surviving(SegsOf("") + SegsOf(path))) == (SegsOf(path)[0], Join(SegsOf(path)[1..], '/'))
  {
    assert SegsOf("") + SegsOf(path) == SegsOf(path);
    AllSurviveIff(SegsOf(path));
  }

  /** A dot segment vanishes, two dots take the segment before them along. */
  lemma DotsAreRemoved(a: string, b: string)
    requires Proper(a) && Proper(b)
    ensures Surviving([a, ".", b]) == [a, b] && Surviving([a, "..", b]) == [b] && Surviving(["..", b]) == [b]
  {
    assert [a, ".", b][1..] == [".", b] && [".", b][1..] == [b] && [b][1..] == [];
    assert [a, "..", b][1..] == ["..", b] && ["..", b][1..] == [b];
    assert Walk([b], [a], RawDots) == [a] + [b] == [a, b] && Walk([b], [], RawDots) == [] + [b] == [b];
    assert Walk([".", b], [a], RawDots) == Walk([b], [a] + [], RawDots) && [a] + [] == [a];
    assert Walk(["..", b], [a], RawDots) == Walk([b], [] + [], RawDots);
    assert Walk([a, ".", b], [], RawDots) == Walk([".", b], [] + [a], RawDots) && [] + [a] == [a];
    TwoNonEmpty(a, b);
  }

  lemma TwoNonEmpty(a: string, b: string)
    requires a != "" && b != ""
    ensures NonEmpty([a, b]) == [a, b] && NonEmpty([b]) == [b]
  {
    assert [a, b][1..] == [b] && [b][1..] == [] && NonEmpty([]) == [];
    assert NonEmpty([b]) == [b] + [] == [b];
  }
}
