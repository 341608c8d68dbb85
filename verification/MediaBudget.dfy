/** Which images the budget of one model call grants (backend/src/agent/tool-media.ts). A granted
    image is charged whether or not a picture can be sent of it; `MediaSent` has what is sent. */
module MediaBudget {
  import opened Collections
  import opened ToolMedia
  import opened Transcript

  function Budget(left: int): nat {
    if left < 0 then 0 else left
  }

  /** The files that cost an image, in order; and the others. */
  function Images(files: seq<ToolFile>, sees: bool): (images: seq<ToolFile>)
    ensures |images| <= |files|
  {
    if files == [] then []
    else (if Counts(files[0], sees) then [files[0]] else []) + Images(files[1..], sees)
  }

  function Others(files: seq<ToolFile>, sees: bool): seq<ToolFile> {
    if files == [] then []
    else (if Counts(files[0], sees) then [] else [files[0]]) + Others(files[1..], sees)
  }

  /** Of one run, as many images are granted as the budget allows, the EARLIER ones, and the budget
      is charged for exactly those. */
  lemma {:induction false} ShownIsBudgeted(files: seq<ToolFile>, sees: bool, left: int)
    ensures var g := Least(Budget(left), |Images(files, sees)|);
            && Images(Shown(files, sees, left), sees) == Images(files, sees)[..g]
            && Remaining(files, sees, left) == left - g
  {
    if files != [] {
      var rest := files[1..];
      var next := if Counts(files[0], sees) && left > 0 then left - 1 else left;
      var tail := Shown(rest, sees, next);
      ShownIsBudgeted(rest, sees, next);
      assert ([files[0]] + tail)[1..] == tail;
    }
  }

  /** Files that cost no image are never skipped. */
  lemma {:induction false} OthersAreShown(files: seq<ToolFile>, sees: bool, left: int)
    ensures Others(Shown(files, sees, left), sees) == Others(files, sees)
  {
    if files != [] {
      var next := if Counts(files[0], sees) && left > 0 then left - 1 else left;
      var tail := Shown(files[1..], sees, next);
      OthersAreShown(files[1..], sees, next);
      assert ([files[0]] + tail)[1..] == tail;
    }
  }

  /** All images returned, and all images granted, in the order of the conversation. */
  function AllImages(runs: seq<Run>, sees: bool): seq<ToolFile> {
    if runs == [] then []
    else AllImages(runs[..|runs| - 1], sees) + Images(runs[|runs| - 1].files, sees)
  }

  function AllGranted(shown: seq<seq<ToolFile>>, sees: bool): seq<ToolFile> {
    if shown == [] then []
    else AllGranted(shown[..|shown| - 1], sees) + Images(shown[|shown| - 1], sees)
  }

  function Granted(runs: seq<Run>, sees: bool, left: int): seq<ToolFile> {
    AllGranted(Allotted(runs, sees, left), sees)
  }

  /** Exactly min(maxImages, total) images are granted. */
  lemma {:induction false} BudgetIsSpent(runs: seq<Run>, sees: bool, left: int)
    ensures |Granted(runs, sees, left)| == Least(Budget(left), |AllImages(runs, sees)|)
  {
    if runs != [] {
      var n := |runs| - 1;
      var next := Remaining(runs[n].files, sees, left);
      ShownIsBudgeted(runs[n].files, sees, left);
      BudgetIsSpent(runs[..n], sees, next);
      var rest := Allotted(runs[..n], sees, next);
      assert Allotted(runs, sees, left)[..n] == rest;
    }
  }

  lemma {:induction false} NothingLeft(runs: seq<Run>, sees: bool, left: int, r: nat)
    requires left <= 0 && r < |runs|
    ensures Images(Allotted(runs, sees, left)[r], sees) == []
  {
    var n := |runs| - 1;
    ShownIsBudgeted(runs[n].files, sees, left);
    if r < n {
      NothingLeft(runs[..n], sees, left, r);
    }
  }

  /** If any image of a run is granted, so are all images of every later run. */
  lemma {:induction false} LaterRunsComeFirst(runs: seq<Run>, sees: bool, left: int, r: nat, s: nat)
    requires r < s < |runs|
    requires Images(Allotted(runs, sees, left)[r], sees) != []
    ensures Images(Allotted(runs, sees, left)[s], sees) == Images(runs[s].files, sees)
  {
    var n := |runs| - 1;
    var next := Remaining(runs[n].files, sees, left);
    ShownIsBudgeted(runs[n].files, sees, left);
    if next <= 0 {
      NothingLeft(runs[..n], sees, next, r);
    } else if s < n {
      LaterRunsComeFirst(runs[..n], sees, next, r, s);
    }
  }

  /** The budget runs out inside a run. */
  predicate SplitsARun(runs: seq<Run>, sees: bool, left: int) {
    left > 0 && runs != []
    && var n := |runs| - 1; var t := |Images(runs[n].files, sees)|;
       left < t || SplitsARun(runs[..n], sees, left - t)
  }

  predicate IsSuffix<T(==)>(s: seq<T>, of: seq<T>) {
    |s| <= |of| && of[|of| - |s|..] == s
  }

  /** What the last run takes, and what it leaves to the earlier ones. */
  lemma GrantedUnfolds(runs: seq<Run>, sees: bool, left: int, own: seq<ToolFile>, g: nat)
    requires runs != [] && own == Images(runs[|runs| - 1].files, sees) && g == Least(Budget(left), |own|)
    ensures Granted(runs, sees, left) == Granted(runs[..|runs| - 1], sees, left - g) + own[..g]
  {
    var n := |runs| - 1;
    ShownIsBudgeted(runs[n].files, sees, left);
    assert Allotted(runs, sees, left)[..n] == Allotted(runs[..n], sees, Remaining(runs[n].files, sees, left));
  }

  /** The integers from..from + n. */
  function Span(from: int, n: nat): (s: seq<int>)
    ensures |s| == n && forall i | 0 <= i < n :: s[i] == from + i
  {
    seq(n, i => from + i)
  }

  function OwnImages(runs: seq<Run>, sees: bool): nat
    requires runs != []
  {
    |Images(runs[|runs| - 1].files, sees)|
  }

  /** The places among all images of those that are granted. */
  function GrantedAt(runs: seq<Run>, sees: bool, left: int): seq<int> {
    if runs == [] then []
    else
      var n := |runs| - 1;
      var g := Least(Budget(left), OwnImages(runs, sees));
      GrantedAt(runs[..n], sees, left - g) + Span(|AllImages(runs[..n], sees)|, g)
  }

  /** `picked` are the elements of `all` at `places`, in order. */
  predicate PickedAt(picked: seq<ToolFile>, places: seq<int>, all: seq<ToolFile>) {
    |picked| == |places|
    && forall i | 0 <= i < |places| :: 0 <= places[i] < |all| && picked[i] == all[places[i]]
  }

  lemma PickedConcat(picked: seq<ToolFile>, places: seq<int>, all: seq<ToolFile>, own: seq<ToolFile>, g: nat)
    requires PickedAt(picked, places, all) && g <= |own|
    ensures PickedAt(picked + own[..g], places + Span(|all|, g), all + own)
  {
    var picked', places', all' := picked + own[..g], places + Span(|all|, g), all + own;
    forall i | 0 <= i < |places'|
      ensures 0 <= places'[i] < |all'| && picked'[i] == all'[places'[i]]
    {
      if i < |places| {
        assert places'[i] == places[i];
      }
    }
  }

  /** The images granted are those at these places, in order. */
  lemma {:induction false} GrantedByPlace(runs: seq<Run>, sees: bool, left: int)
    ensures PickedAt(Granted(runs, sees, left), GrantedAt(runs, sees, left), AllImages(runs, sees))
  {
    if runs != [] {
      var n := |runs| - 1;
      var own := Images(runs[n].files, sees);
      var g := Least(Budget(left), |own|);
      GrantedUnfolds(runs, sees, left, own, g);
      GrantedByPlace(runs[..n], sees, left - g);
      PickedConcat(Granted(runs[..n], sees, left - g), GrantedAt(runs[..n], sees, left - g),
                   AllImages(runs[..n], sees), own, g);
    }
  }

  lemma {:induction false} NothingGrantedAt(runs: seq<Run>, sees: bool, left: int)
    requires left <= 0
    ensures GrantedAt(runs, sees, left) == []
  {
    if runs != [] {
      NothingGrantedAt(runs[..|runs| - 1], sees, left);
    }
  }

  predicate IsLastSpan(places: seq<int>, total: nat) {
    places == Span(total - |places|, |places|)
  }

  lemma SpansJoin(rest: seq<int>, before: nat, own: nat)
    ensures IsLastSpan(rest + Span(before, own), before + own) <==> IsLastSpan(rest, before)
  {
    var all, last := rest + Span(before, own), Span(before - |rest|, |rest| + own);
    assert last[..|rest|] == Span(before - |rest|, |rest|) && last[|rest|..] == Span(before, own);
    assert all[..|rest|] == rest && all[|rest|..] == Span(before, own);
    assert last == last[..|rest|] + last[|rest|..];
  }

  lemma HeadIsNoLastSpan(before: nat, own: nat, g: nat)
    requires 0 < g < own
    ensures !IsLastSpan(Span(before, g), before + own)
  {
    assert Span(before, g)[0] != Span(before + own - g, g)[0];
  }

  /** The most recent images are granted exactly when the budget does not run out inside a run:
      within a run it is the first images that are granted. */
  lemma {:induction false} MostRecentWinUnlessARunIsSplit(runs: seq<Run>, sees: bool, left: int)
    ensures IsLastSpan(GrantedAt(runs, sees, left), |AllImages(runs, sees)|) <==> !SplitsARun(runs, sees, left)
  {
    if left <= 0 {
      NothingGrantedAt(runs, sees, left);
    } else if runs != [] {
      var n := |runs| - 1;
      var own, before := OwnImages(runs, sees), |AllImages(runs[..n], sees)|;
      if left < own {
        NothingGrantedAt(runs[..n], sees, 0);
        assert [] + Span(before, left) == Span(before, left);
        HeadIsNoLastSpan(before, own, left);
      } else {
        SpansJoin(GrantedAt(runs[..n], sees, left - own), before, own);
        MostRecentWinUnlessARunIsSplit(runs[..n], sees, left - own);
      }
    }
  }

  /** Then the images granted are the last ones, as a list too. */
  lemma UnsplitMeansTheLastImages(runs: seq<Run>, sees: bool, left: int)
    requires !SplitsARun(runs, sees, left)
    ensures IsSuffix(Granted(runs, sees, left), AllImages(runs, sees))
  {
    MostRecentWinUnlessARunIsSplit(runs, sees, left);
    GrantedByPlace(runs, sees, left);
    BudgetIsSpent(runs, sees, left);
    var granted, all := Granted(runs, sees, left), AllImages(runs, sees);
    forall i | 0 <= i < |granted|
      ensures granted[i] == all[|all| - |granted|..][i]
    {
      assert GrantedAt(runs, sees, left)[i] == |all| - |granted| + i;
    }
  }

  /** Two images are granted of one result with three: the first two, not the most recent. */
  lemma FirstTwoOfThree(run: Run)
    requires |Images(run.files, true)| == 3
    ensures GrantedAt([run], true, 2) == [0, 1] && !IsLastSpan([0, 1], |AllImages([run], true)|)
  {
    assert [run][..0] == [];
    NothingGrantedAt([], true, 0);
    assert [] + Span(0, 2) == [0, 1] && [0, 1][0] != Span(1, 2)[0];
  }

  // ---- The images of a conversation

  /** All files the first n messages' tool results returned. */
  function FilesOf(ms: seq<Message>, n: nat): seq<ToolFile>
    requires n <= |ms|
  {
    if n == 0 then []
    else if ms[n - 1].ToolResult? then FilesOf(ms, n - 1) + ms[n - 1].files
    else FilesOf(ms, n - 1)
  }

  lemma {:induction false} ImagesConcat(a: seq<ToolFile>, b: seq<ToolFile>, sees: bool)
    ensures Images(a + b, sees) == Images(a, sees) + Images(b, sees)
  {
    if a == [] {
      assert a + b == b;
    } else {
      assert (a + b)[1..] == a[1..] + b;
      ImagesConcat(a[1..], b, sees);
    }
  }

  lemma AllImagesSnoc(runs: seq<Run>, last: Run, sees: bool)
    ensures AllImages(runs + [last], sees) == AllImages(runs, sees) + Images(last.files, sees)
  {
    assert (runs + [last])[..|runs|] == runs;
  }

  /** Dropping the runs without files drops no image. */
  lemma {:induction false} WithFilesKeepsImages(runs: seq<Run>, sees: bool)
    ensures AllImages(WithFiles(runs), sees) == AllImages(runs, sees)
  {
    if runs != [] {
      var n := |runs| - 1;
      WithFilesKeepsImages(runs[..n], sees);
      var kept := WithFiles(runs[..n]);
      if runs[n].files != [] {
        AllImagesSnoc(kept, runs[n], sees);
      } else {
        assert kept + [] == kept && AllImages(kept, sees) + [] == AllImages(kept, sees);
      }
    }
  }

  lemma MergingAddsImages(runs: seq<Run>, last: Run, i: nat, files: seq<ToolFile>, sees: bool)
    ensures AllImages(runs + [Run(i, last.files + files)], sees) == AllImages(runs + [last], sees) + Images(files, sees)
  {
    AllImagesSnoc(runs, Run(i, last.files + files), sees);
    AllImagesSnoc(runs, last, sees);
    ImagesConcat(last.files, files, sees);
    Assoc(AllImages(runs, sees), Images(last.files, sees), Images(files, sees));
  }

  lemma MergingIntoLast(before: seq<Run>, i: nat, files: seq<ToolFile>, sees: bool)
    requires before != []
    ensures AllImages(before[..|before| - 1] + [Run(i, before[|before| - 1].files + files)], sees)
         == AllImages(before, sees) + Images(files, sees)
  {
    var k := |before| - 1;
    assert before == before[..k] + [before[k]];
    MergingAddsImages(before[..k], before[k], i, files, sees);
  }

  /** One more result adds its own images, whether it joins the last run or opens one. */
  lemma ResultAddsItsImages(ms: seq<Message>, n: nat, sees: bool)
    requires 0 < n <= |ms| && ms[n - 1].ToolResult?
    ensures AllImages(Runs(ms, n), sees) == AllImages(Runs(ms, n - 1), sees) + Images(ms[n - 1].files, sees)
  {
    var before := Runs(ms, n - 1);
    if before != [] && before[|before| - 1].end + 1 == n - 1 {
      MergingIntoLast(before, n - 1, ms[n - 1].files, sees);
    } else {
      AllImagesSnoc(before, Run(n - 1, ms[n - 1].files), sees);
    }
  }

  /** The runs hold exactly the images of the conversation's tool results, in order. */
  lemma {:induction false} RunsHoldTheImages(ms: seq<Message>, n: nat, sees: bool)
    requires n <= |ms|
    ensures AllImages(Runs(ms, n), sees) == Images(FilesOf(ms, n), sees)
  {
    if n > 0 {
      RunsHoldTheImages(ms, n - 1, sees);
      if ms[n - 1].ToolResult? {
        ResultAddsItsImages(ms, n, sees);
        ImagesConcat(FilesOf(ms, n - 1), ms[n - 1].files, sees);
      }
    }
  }

  /** One model call is granted exactly min(maxImages, images of all tool results) images. */
  lemma ConversationBudgetIsSpent(ms: seq<Message>, sees: bool, maxImages: int)
    ensures |Granted(WithFiles(Runs(ms, |ms|)), sees, maxImages)|
         == Least(Budget(maxImages), |Images(FilesOf(ms, |ms|), sees)|)
  {
    BudgetIsSpent(WithFiles(Runs(ms, |ms|)), sees, maxImages);
    WithFilesKeepsImages(Runs(ms, |ms|), sees);
    RunsHoldTheImages(ms, |ms|, sees);
  }
}
