/** The media messages told message by message (backend/src/agent/tool-media.ts): a reference
    that counts images instead of passing a budget on, and the proof that the runs, the reversed
    budget loop and the weaving give exactly it. */
module MediaReference {
  import opened Collections
  import opened MediaBudget
  import opened MediaPlacement
  import opened ToolMedia
  import opened Transcript

  /** Showing the file takes one of the images a model call may hold. */
  predicate Costs(f: ToolFile, sees: bool) {
    sees && (f.mimeType == "image/jpeg" || f.mimeType == "image/png" || f.mimeType == "image/gif" || f.mimeType == "image/webp")
  }

  /** How many of the first n files do. */
  function CostOf(files: seq<ToolFile>, n: nat, sees: bool): nat
    requires n <= |files|
  {
    if n == 0 then 0 else CostOf(files, n - 1, sees) + if Costs(files[n - 1], sees) then 1 else 0
  }

  /** How many images the results among the first n messages returned. */
  function CostBefore(ms: seq<Message>, n: nat, sees: bool): nat
    requires n <= |ms|
  {
    if n == 0 then 0
    else CostBefore(ms, n - 1, sees)
         + if ms[n - 1].ToolResult? then CostOf(ms[n - 1].files, |ms[n - 1].files|, sees) else 0
  }

  /** What is shown of the first n files when `left` images may be: a file that costs one is
      passed over when `left` of those before it do. */
  function ShownParts(files: seq<ToolFile>, n: nat, sees: bool, left: int, partsFor: ToolFile -> seq<Part>): seq<Part>
    requires n <= |files|
  {
    if n == 0 then []
    else
      var f := files[n - 1];
      ShownParts(files, n - 1, sees, left, partsFor)
      + if !Costs(f, sees) || CostOf(files, n - 1, sees) < left then partsFor(f) else []
  }

  /** What the images of the results after message e leave of the budget. */
  function LeftAt(ms: seq<Message>, e: nat, sees: bool, maxImages: int): int
    requires e < |ms|
  {
    maxImages - (CostBefore(ms, |ms|, sees) - CostBefore(ms, e + 1, sees))
  }

  /** What follows message e: after the last of a row of results, one message of what their files
      show. */
  function Following(ms: seq<Message>, e: nat, sees: bool, maxImages: int, partsFor: ToolFile -> seq<Part>): seq<Message>
    requires e < |ms|
  {
    if !ms[e].ToolResult? || (e + 1 < |ms| && ms[e + 1].ToolResult?) then []
    else
      var files := FilesEndingAt(ms, e);
      var parts := ShownParts(files, |files|, sees, LeftAt(ms, e, sees, maxImages), partsFor);
      if parts == [] then []
      else
        [Human(Parts([TextPart("Content of the files the tool calls above returned (added by the system, not written by the user):")]
                     + parts), "")]
  }

  /** The messages from position i on, each with what follows it. */
  function WithMedia(ms: seq<Message>, i: nat, sees: bool, maxImages: int, partsFor: ToolFile -> seq<Part>): seq<Message>
    requires i <= |ms|
    decreases |ms| - i
  {
    if i == |ms| then []
    else [ms[i]] + Following(ms, i, sees, maxImages, partsFor) + WithMedia(ms, i + 1, sees, maxImages, partsFor)
  }

  // ---- The files of one run

  lemma {:induction false} CostIsImages(files: seq<ToolFile>, n: nat, sees: bool)
    requires n <= |files|
    ensures CostOf(files, n, sees) == |Images(files[..n], sees)|
  {
    if n > 0 {
      CostIsImages(files, n - 1, sees);
      assert files[..n] == files[..n - 1] + [files[n - 1]];
      ImagesConcat(files[..n - 1], [files[n - 1]], sees);
      ImagesOfOne(files[n - 1], sees);
    }
  }

  lemma ImagesOfOne(f: ToolFile, sees: bool)
    ensures Images([f], sees) == if Costs(f, sees) then [f] else []
  {
    assert [f][1..] == [];
  }

  lemma ShownOfOne(f: ToolFile, sees: bool, left: int)
    ensures Shown([f], sees, left) == if !Costs(f, sees) || left > 0 then [f] else []
  {
    assert [f][1..] == [];
  }

  /** One more file is shown exactly when it costs nothing or fewer than `left` before it do. */
  lemma {:induction false} ShownSnoc(a: seq<ToolFile>, f: ToolFile, sees: bool, left: int)
    ensures Shown(a + [f], sees, left)
         == Shown(a, sees, left) + if !Costs(f, sees) || |Images(a, sees)| < left then [f] else []
  {
    if a == [] {
      assert a + [f] == [f];
      ShownOfOne(f, sees, left);
    } else {
      var rest := a[1..] + [f];
      assert (a + [f])[1..] == rest;
      ShownSnoc(a[1..], f, sees, if Counts(a[0], sees) && left > 0 then left - 1 else left);
    }
  }

  lemma {:induction false} PartsConcat(a: seq<ToolFile>, b: seq<ToolFile>, partsFor: ToolFile -> seq<Part>)
    ensures PartsOf(a + b, partsFor) == PartsOf(a, partsFor) + PartsOf(b, partsFor)
  {
    if a == [] {
      assert a + b == b;
    } else {
      assert (a + b)[1..] == a[1..] + b;
      PartsConcat(a[1..], b, partsFor);
    }
  }

  lemma PartsOfAtMostOne(f: ToolFile, shown: bool, partsFor: ToolFile -> seq<Part>)
    ensures PartsOf(if shown then [f] else [], partsFor) == if shown then partsFor(f) else []
  {
    assert [f][1..] == [] && PartsOf([], partsFor) == [];
    assert partsFor(f) + [] == partsFor(f);
  }

  lemma {:induction false} ShownPartsAre(files: seq<ToolFile>, n: nat, sees: bool, left: int, partsFor: ToolFile -> seq<Part>)
    requires n <= |files|
    ensures ShownParts(files, n, sees, left, partsFor) == PartsOf(Shown(files[..n], sees, left), partsFor)
  {
    if n > 0 {
      var a, f := files[..n - 1], files[n - 1];
      var shown := !Costs(f, sees) || |Images(a, sees)| < left;
      ShownPartsAre(files, n - 1, sees, left, partsFor);
      CostIsImages(files, n - 1, sees);
      assert files[..n] == a + [f];
      ShownSnoc(a, f, sees, left);
      PartsConcat(Shown(a, sees, left), if shown then [f] else [], partsFor);
      PartsOfAtMostOne(f, shown, partsFor);
    }
  }

  // ---- What is left for a run

  lemma {:induction false} NothingMoreShown(files: seq<ToolFile>, sees: bool, left: int, less: int)
    requires left <= 0 && less <= 0
    ensures Shown(files, sees, left) == Shown(files, sees, less)
  {
    if files != [] {
      NothingMoreShown(files[1..], sees, left, less);
    }
  }

  lemma SameShown(files: seq<ToolFile>, sees: bool, left: int, own: nat, later: nat)
    ensures Shown(files, sees, left - Least(Budget(left), own) - later)
         == Shown(files, sees, left - own - later)
  {
    if left < own {
      NothingMoreShown(files, sees, left - Budget(left) - later, left - own - later);
    }
  }

  lemma ImagesOfLast(runs: seq<Run>, sees: bool)
    requires runs != []
    ensures var n := |runs| - 1;
            |AllImages(runs, sees)| == |AllImages(runs[..n], sees)| + |Images(runs[n].files, sees)|
  {
  }

  /** An earlier run, once what it is served from the runs before the last is known. */
  lemma EarlierAllotted(runs: seq<Run>, sees: bool, left: int, r: nat, later: nat)
    requires r < |runs| - 1
    requires var n := |runs| - 1; var next := Remaining(runs[n].files, sees, left);
             Allotted(runs[..n], sees, next)[r] == Shown(runs[r].files, sees, next - later)
    ensures Allotted(runs, sees, left)[r]
         == Shown(runs[r].files, sees, left - |Images(runs[|runs| - 1].files, sees)| - later)
  {
    var n := |runs| - 1;
    AllottedLast(runs, sees, left, r);
    ShownIsBudgeted(runs[n].files, sees, left);
    SameShown(runs[r].files, sees, left, |Images(runs[n].files, sees)|, later);
  }

  /** How many images the runs after the one at r hold. */
  function ImagesBehind(runs: seq<Run>, r: nat, sees: bool): nat
    requires r < |runs|
    decreases |runs|
  {
    var n := |runs| - 1;
    if r == n then 0 else |Images(runs[n].files, sees)| + ImagesBehind(runs[..n], r, sees)
  }

  /** A run is served with what the images of all later runs leave. */
  lemma {:induction false} AllottedIs(runs: seq<Run>, sees: bool, left: int, r: nat)
    requires r < |runs|
    ensures Allotted(runs, sees, left)[r] == Shown(runs[r].files, sees, left - ImagesBehind(runs, r, sees))
    decreases |runs|
  {
    var n := |runs| - 1;
    if r == n {
      AllottedLast(runs, sees, left, r);
    } else {
      AllottedIs(runs[..n], sees, Remaining(runs[n].files, sees, left), r);
      EarlierAllotted(runs, sees, left, r, ImagesBehind(runs[..n], r, sees));
    }
  }

  lemma {:induction false} BehindIsTheRest(runs: seq<Run>, r: nat, sees: bool)
    requires r < |runs|
    ensures |AllImages(runs[..r + 1], sees)| + ImagesBehind(runs, r, sees) == |AllImages(runs, sees)|
    decreases |runs|
  {
    var n := |runs| - 1;
    if r == n {
      assert runs[..r + 1] == runs;
    } else {
      BehindIsTheRest(runs[..n], r, sees);
      assert runs[..n][..r + 1] == runs[..r + 1];
      ImagesOfLast(runs, sees);
    }
  }

  // ---- The runs up to a position

  lemma {:induction false} CostIsFiles(ms: seq<Message>, n: nat, sees: bool)
    requires n <= |ms|
    ensures CostBefore(ms, n, sees) == |Images(FilesOf(ms, n), sees)|
  {
    if n > 0 {
      CostIsFiles(ms, n - 1, sees);
      if ms[n - 1].ToolResult? {
        var files := ms[n - 1].files;
        CostIsImages(files, |files|, sees);
        assert files[..|files|] == files;
        ImagesConcat(FilesOf(ms, n - 1), files, sees);
      }
    }
  }

  lemma OrderedWhole(ms: seq<Message>)
    ensures Ordered(WithFiles(Runs(ms, |ms|)))
  {
    RunsAreOrdered(ms, |ms|);
    WithFilesKeepsOrder(Runs(ms, |ms|));
  }

  lemma ServedImages(ms: seq<Message>, n: nat, sees: bool)
    requires n <= |ms|
    ensures |AllImages(WithFiles(Runs(ms, n)), sees)| == CostBefore(ms, n, sees)
  {
    WithFilesKeepsImages(Runs(ms, n), sees);
    RunsHoldTheImages(ms, n, sees);
    CostIsFiles(ms, n, sees);
  }

  /** The images of the runs that end at position e or before. */
  function ImagesTo(runs: seq<Run>, sees: bool, e: nat): nat {
    if runs == [] then 0
    else
      var n := |runs| - 1;
      ImagesTo(runs[..n], sees, e) + if runs[n].end <= e then |Images(runs[n].files, sees)| else 0
  }

  lemma ImagesToSnoc(runs: seq<Run>, last: Run, sees: bool, e: nat)
    ensures ImagesTo(runs + [last], sees, e) == ImagesTo(runs, sees, e) + if last.end <= e then |Images(last.files, sees)| else 0
  {
    assert (runs + [last])[..|runs|] == runs;
  }

  lemma {:induction false} ImagesToTheEnd(runs: seq<Run>, sees: bool, e: nat)
    requires forall r | 0 <= r < |runs| :: runs[r].end <= e
    ensures ImagesTo(runs, sees, e) == |AllImages(runs, sees)|
  {
    if runs != [] {
      ImagesToTheEnd(runs[..|runs| - 1], sees, e);
    }
  }

  lemma {:induction false} ImagesToARun(runs: seq<Run>, sees: bool, r: nat)
    requires Ordered(runs) && r < |runs|
    ensures ImagesTo(runs, sees, runs[r].end) == |AllImages(runs[..r + 1], sees)|
    decreases |runs|
  {
    var n := |runs| - 1;
    if r == n {
      assert runs[..r + 1] == runs;
      assert forall k | 0 <= k < |runs| :: runs[k].end <= runs[r].end;
      ImagesToTheEnd(runs, sees, runs[r].end);
    } else {
      ImagesToARun(runs[..n], sees, r);
      assert runs[..n][..r + 1] == runs[..r + 1];
    }
  }

  lemma {:induction false} ServedImagesTo(all: seq<Run>, sees: bool, e: nat)
    ensures ImagesTo(WithFiles(all), sees, e) == ImagesTo(all, sees, e)
  {
    if all != [] {
      var n := |all| - 1;
      ServedImagesTo(all[..n], sees, e);
      if all[n].files != [] {
        ImagesToSnoc(WithFiles(all[..n]), all[n], sees, e);
      } else {
        assert WithFiles(all[..n]) + [] == WithFiles(all[..n]);
      }
    }
  }

  lemma {:induction false} ImagesToIsCost(ms: seq<Message>, n: nat, sees: bool, e: nat)
    requires n <= |ms| && EndsARun(ms, n, e)
    ensures ImagesTo(Runs(ms, n), sees, e) == CostBefore(ms, e + 1, sees)
    decreases n
  {
    if n == e + 1 {
      RunsAreOrdered(ms, n);
      ImagesToTheEnd(Runs(ms, n), sees, e);
      RunsHoldTheImages(ms, n, sees);
      CostIsFiles(ms, n, sees);
    } else {
      assert EndsARun(ms, n - 1, e);
      ImagesToIsCost(ms, n - 1, sees, e);
      if ms[n - 1].ToolResult? {
        LaterRunIsNotCounted(Runs(ms, n - 1), n - 1, ms[n - 1].files, sees, e);
      }
    }
  }

  /** One more result behind e, in a run of its own or in the last one, is not counted. */
  lemma LaterRunIsNotCounted(runs: seq<Run>, i: nat, files: seq<ToolFile>, sees: bool, e: nat)
    requires e + 1 < i
    ensures ImagesTo(runs + [Run(i, files)], sees, e) == ImagesTo(runs, sees, e)
    ensures runs != [] && runs[|runs| - 1].end + 1 == i ==>
              ImagesTo(runs[..|runs| - 1] + [Run(i, runs[|runs| - 1].files + files)], sees, e) == ImagesTo(runs, sees, e)
  {
    ImagesToSnoc(runs, Run(i, files), sees, e);
    if runs != [] {
      ImagesToSnoc(runs[..|runs| - 1], Run(i, runs[|runs| - 1].files + files), sees, e);
    }
  }

  // ---- The whole list

  lemma AllPartsAre(files: seq<ToolFile>, sees: bool, left: int, partsFor: ToolFile -> seq<Part>)
    ensures ShownParts(files, |files|, sees, left, partsFor) == PartsOf(Shown(files, sees, left), partsFor)
  {
    ShownPartsAre(files, |files|, sees, left, partsFor);
    assert files[..|files|] == files;
  }

  lemma BlockShows(ms: seq<Message>, e: nat, sees: bool, maxImages: int, partsFor: ToolFile -> seq<Part>,
                   runs: seq<Run>, r: nat, files: seq<ToolFile>)
    requires EndsARun(ms, |ms|, e) && files == FilesEndingAt(ms, e) != []
    requires runs == WithFiles(Runs(ms, |ms|)) && r < |runs| && runs[r] == Run(e, files)
    ensures PartsOf(Allotted(runs, sees, maxImages)[r], partsFor)
         == ShownParts(files, |files|, sees, LeftAt(ms, e, sees, maxImages), partsFor)
  {
    var left := LeftAt(ms, e, sees, maxImages);
    AllPartsAre(files, sees, left, partsFor);
    ServedAt(ms, e, sees, maxImages, runs, r, left);
  }

  lemma AllottedWith(runs: seq<Run>, sees: bool, maxImages: int, r: nat, left: int)
    requires r < |runs| && left == maxImages - ImagesBehind(runs, r, sees)
    ensures Allotted(runs, sees, maxImages)[r] == Shown(runs[r].files, sees, left)
  {
    AllottedIs(runs, sees, maxImages, r);
  }

  lemma BehindIsLater(ms: seq<Message>, e: nat, sees: bool, runs: seq<Run>, r: nat)
    requires EndsARun(ms, |ms|, e)
    requires runs == WithFiles(Runs(ms, |ms|)) && r < |runs| && runs[r].end == e
    ensures ImagesBehind(runs, r, sees) == CostBefore(ms, |ms|, sees) - CostBefore(ms, e + 1, sees)
  {
    ServedImages(ms, |ms|, sees);
    ImagesUpTo(ms, e, sees, runs, r);
    BehindIsTheRest(runs, r, sees);
  }

  lemma ServedAt(ms: seq<Message>, e: nat, sees: bool, maxImages: int, runs: seq<Run>, r: nat, left: int)
    requires EndsARun(ms, |ms|, e) && left == LeftAt(ms, e, sees, maxImages)
    requires runs == WithFiles(Runs(ms, |ms|)) && r < |runs| && runs[r].end == e
    ensures Allotted(runs, sees, maxImages)[r] == Shown(runs[r].files, sees, left)
  {
    BehindIsLater(ms, e, sees, runs, r);
    AllottedWith(runs, sees, maxImages, r, left);
  }

  /** The images of the served runs up to the one that ends at e are those of the results up to e. */
  lemma ImagesUpTo(ms: seq<Message>, e: nat, sees: bool, runs: seq<Run>, r: nat)
    requires EndsARun(ms, |ms|, e)
    requires runs == WithFiles(Runs(ms, |ms|)) && r < |runs| && runs[r].end == e
    ensures |AllImages(runs[..r + 1], sees)| == CostBefore(ms, e + 1, sees)
  {
    OrderedWhole(ms);
    ImagesToARun(runs, sees, r);
    ServedImagesTo(Runs(ms, |ms|), sees, e);
    ImagesToIsCost(ms, |ms|, sees, e);
  }

  lemma NothingOfNoFiles(sees: bool, left: int, partsFor: ToolFile -> seq<Part>)
    ensures ShownParts([], 0, sees, left, partsFor) == []
  {
  }

  /** What follows a block is the message of its parts. */
  lemma FollowingBlock(ms: seq<Message>, e: nat, sees: bool, maxImages: int, partsFor: ToolFile -> seq<Part>, parts: seq<Part>)
    requires EndsARun(ms, |ms|, e)
    requires parts == ShownParts(FilesEndingAt(ms, e), |FilesEndingAt(ms, e)|, sees, LeftAt(ms, e, sees, maxImages), partsFor)
    ensures Following(ms, e, sees, maxImages, partsFor) == if parts == [] then [] else [Media(parts)]
  {
  }

  lemma FollowingIsInserted(ms: seq<Message>, e: nat, sees: bool, maxImages: int, partsFor: ToolFile -> seq<Part>)
    requires e < |ms|
    ensures Following(ms, e, sees, maxImages, partsFor) == After(InsertionsOf(ms, sees, maxImages, partsFor), e)
  {
    if EndsARun(ms, |ms|, e) && FilesEndingAt(ms, e) != [] {
      BlockIsInserted(ms, e, sees, maxImages, partsFor);
    } else {
      NothingIsInserted(ms, e, sees, maxImages, partsFor);
    }
  }

  lemma BlockIsInserted(ms: seq<Message>, e: nat, sees: bool, maxImages: int, partsFor: ToolFile -> seq<Part>)
    requires EndsARun(ms, |ms|, e) && FilesEndingAt(ms, e) != []
    ensures Following(ms, e, sees, maxImages, partsFor) == After(InsertionsOf(ms, sees, maxImages, partsFor), e)
  {
    var r := BlocksAreFollowed(ms, sees, maxImages, partsFor, e);
    var runs := WithFiles(Runs(ms, |ms|));
    var parts := PartsOf(Allotted(runs, sees, maxImages)[r], partsFor);
    BlockShows(ms, e, sees, maxImages, partsFor, runs, r, FilesEndingAt(ms, e));
    FollowingBlock(ms, e, sees, maxImages, partsFor, parts);
  }

  lemma NothingIsInserted(ms: seq<Message>, e: nat, sees: bool, maxImages: int, partsFor: ToolFile -> seq<Part>)
    requires e < |ms| && !(EndsARun(ms, |ms|, e) && FilesEndingAt(ms, e) != [])
    ensures Following(ms, e, sees, maxImages, partsFor) == [] == After(InsertionsOf(ms, sees, maxImages, partsFor), e)
  {
    NothingOfNoFiles(sees, LeftAt(ms, e, sees, maxImages), partsFor);
    if e in InsertionsOf(ms, sees, maxImages, partsFor) {
      InsertionsFollowTheBlocks(ms, sees, maxImages, partsFor, e);
    }
  }

  lemma WeaveStep(ms: seq<Message>, ins: map<nat, seq<Part>>, i: nat, here: seq<Message>, rest: seq<Message>)
    requires i < |ms| && here == After(ins, i) && rest == Weave(ms, ins, i + 1)
    ensures Weave(ms, ins, i) == [ms[i]] + here + rest
  {
  }

  /** The runs, the reversed loop over them and the weaving give the reference's list. */
  lemma {:induction false} WovenIsTheReference(ms: seq<Message>, i: nat, sees: bool, maxImages: int, partsFor: ToolFile -> seq<Part>)
    requires i <= |ms|
    ensures Weave(ms, InsertionsOf(ms, sees, maxImages, partsFor), i) == WithMedia(ms, i, sees, maxImages, partsFor)
    decreases |ms| - i
  {
    if i < |ms| {
      FollowingIsInserted(ms, i, sees, maxImages, partsFor);
      WovenIsTheReference(ms, i + 1, sees, maxImages, partsFor);
      WeaveStep(ms, InsertionsOf(ms, sees, maxImages, partsFor), i, Following(ms, i, sees, maxImages, partsFor),
                WithMedia(ms, i + 1, sees, maxImages, partsFor));
    }
  }
}
