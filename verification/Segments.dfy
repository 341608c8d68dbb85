/** Splitting and joining, and the dot segments a URL parser removes from a path. */
module Segments {
  /** `s.split(c)`. */
  function Split(s: string, c: char): (parts: seq<string>)
    ensures |parts| >= 1
  {
    if s == "" then [""]
    else
      var rest := Split(s[1..], c);
      if s[0] == c then [""] + rest else [[s[0]] + rest[0]] + rest[1..]
  }

  /** `parts.join(c)`. */
  function Join(parts: seq<string>, c: char): string {
    if parts == [] then "" else if |parts| == 1 then parts[0] else parts[0] + [c] + Join(parts[1..], c)
  }

  /** No part contains the separator. */
  predicate Apart(parts: seq<string>, c: char) {
    forall p | p in parts :: c !in p
  }

  lemma {:induction false} SplitIsApart(s: string, c: char)
    ensures Apart(Split(s, c), c)
  {
    if s != "" {
      SplitIsApart(s[1..], c);
    }
  }

  lemma {:induction false} JoinOfSplit(s: string, c: char)
    ensures Join(Split(s, c), c) == s
  {
    if s != "" {
      JoinOfSplit(s[1..], c);
      var rest := Split(s[1..], c);
      if s[0] == c {
        assert ([""] + rest)[1..] == rest;
        assert "" + [c] + Join(rest, c) == s;
      } else {
        assert ([[s[0]] + rest[0]] + rest[1..])[1..] == rest[1..];
      }
    }
  }

  lemma {:induction false} SplitNone(p: string, c: char)
    requires c !in p
    ensures Split(p, c) == [p]
  {
    if p != "" {
      SplitNone(p[1..], c);
      assert [p[0]] + p[1..] == p;
    }
  }

  lemma {:induction false} SplitFirst(p: string, rest: string, c: char)
    requires c !in p
    ensures Split(p + [c] + rest, c) == [p] + Split(rest, c)
  {
    var s := p + [c] + rest;
    if p == "" {
      assert s[1..] == rest;
    } else {
      SplitFirst(p[1..], rest, c);
      assert s[1..] == p[1..] + [c] + rest;
      assert [p[0]] + p[1..] == p;
    }
  }

  lemma {:induction false} SplitOne(s: string, c: char)
    ensures |Split(s, c)| == 1 <==> c !in s
  {
    if s != "" {
      SplitOne(s[1..], c);
    }
  }

  lemma {:induction false} SplitOfJoin(parts: seq<string>, c: char)
    requires parts != [] && Apart(parts, c)
    ensures Split(Join(parts, c), c) == parts
  {
    if |parts| == 1 {
      SplitNone(parts[0], c);
    } else {
      SplitFirst(parts[0], Join(parts[1..], c), c);
      SplitOfJoin(parts[1..], c);
    }
  }

  lemma {:induction false} JoinAppend(a: seq<string>, b: seq<string>, c: char)
    requires a != [] && b != []
    ensures Join(a + b, c) == Join(a, c) + [c] + Join(b, c)
  {
    assert (a + b)[1..] == a[1..] + b;
    if |a| == 1 {
      assert a[1..] + b == b;
    } else {
      JoinAppend(a[1..], b, c);
    }
  }

  /** How many dots a segment stands for: 1 and 2 are the dot segments. */
  function RawDots(s: string): nat {
    if s == "." then 1 else if s == ".." then 2 else 0
  }

  /** ".." drops the segment before it. */
  function Up(done: seq<string>, d: nat): seq<string> {
    if d == 2 && done != [] then done[..|done| - 1] else done
  }

  /** What the segment itself leaves: a dot segment at the end leaves an empty one. */
  function Here(seg: string, d: nat, last: bool): seq<string> {
    if d != 1 && d != 2 then [seg] else if last then [""] else []
  }

  /** The path state of a URL parser over the segments, `done` so far. */
  function Walk(segs: seq<string>, done: seq<string>, dots: string -> nat): seq<string>
    decreases |segs|
  {
    if segs == [] then done
    else
      var d := dots(segs[0]);
      var up, here := Up(done, d), Here(segs[0], d, |segs| == 1);
      Walk(segs[1..], up + here, dots)
  }

  /** `filter(Boolean)` on strings. */
  function NonEmpty(parts: seq<string>): seq<string> {
    if parts == [] then [] else (if parts[0] == "" then [] else [parts[0]]) + NonEmpty(parts[1..])
  }

  lemma {:induction false} NonEmptyAppend(a: seq<string>, b: seq<string>)
    ensures NonEmpty(a + b) == NonEmpty(a) + NonEmpty(b)
  {
    if a == [] {
      assert a + b == b;
    } else {
      assert (a + b)[1..] == a[1..] + b;
      NonEmptyAppend(a[1..], b);
    }
  }

  predicate Proper(s: string) {
    s != "" && s != "." && s != ".."
  }

  predicate AllProper(segs: seq<string>) {
    forall s | s in segs :: Proper(s)
  }

  function ProperCount(segs: seq<string>): nat {
    if segs == [] then 0 else (if Proper(segs[0]) then 1 else 0) + ProperCount(segs[1..])
  }

  lemma {:induction false} ProperCountFull(segs: seq<string>)
    ensures ProperCount(segs) <= |segs|
    ensures AllProper(segs) <==> ProperCount(segs) == |segs|
  {
    if segs != [] {
      ProperCountFull(segs[1..]);
      assert segs == [segs[0]] + segs[1..];
    }
  }

  /** Proper segments all survive, in place. */
  lemma {:induction false} ProperSurvive(segs: seq<string>, done: seq<string>)
    requires AllProper(segs)
    ensures NonEmpty(Walk(segs, done, RawDots)) == NonEmpty(done) + segs
    decreases |segs|
  {
    if segs != [] {
      assert Proper(segs[0]);
      ProperSurvive(segs[1..], done + [segs[0]]);
      NonEmptyAppend(done, [segs[0]]);
      assert NonEmpty([segs[0]]) == [segs[0]];
      assert segs == [segs[0]] + segs[1..];
      assert NonEmpty(done) + [segs[0]] + segs[1..] == NonEmpty(done) + segs;
    }
  }

  /** No more than the proper segments survive. */
  lemma {:induction false} OthersVanish(segs: seq<string>, done: seq<string>)
    ensures |NonEmpty(Walk(segs, done, RawDots))| <= |NonEmpty(done)| + ProperCount(segs)
    decreases |segs|
  {
    if segs != [] {
      var d := RawDots(segs[0]);
      var up, here := Up(done, d), Here(segs[0], d, |segs| == 1);
      OthersVanish(segs[1..], up + here);
      NonEmptyAppend(up, here);
      assert |NonEmpty(here)| <= if Proper(segs[0]) then 1 else 0;
      if up != done {
        NonEmptyAppend(up, [done[|done| - 1]]);
        assert done == up + [done[|done| - 1]];
      }
    }
  }
}
