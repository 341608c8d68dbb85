/** The pictures one model call is really sent (backend/src/agent/tool-media.ts): an image the
    budget grants is charged even when only a line of text can be shown of it. */
module MediaSent {
  import opened Collections
  import opened MediaBudget
  import opened MediaParts
  import opened MediaPlacement
  import opened ToolMedia
  import opened Transcript

  /** Files that cost no image give no picture, the others at most one. */
  ghost predicate OneAtMost(partsFor: ToolFile -> seq<Part>, sees: bool) {
    forall f :: Pics(partsFor(f)) <= if Counts(f, sees) then 1 else 0
  }

  predicate Pictured(f: ToolFile, partsFor: ToolFile -> seq<Part>) {
    Pics(partsFor(f)) == 1
  }

  predicate AllPictured(files: seq<ToolFile>, partsFor: ToolFile -> seq<Part>) {
    forall f | f in files :: Pictured(f, partsFor)
  }

  // ---- How many are sent

  function PicturedOf(images: seq<ToolFile>, partsFor: ToolFile -> seq<Part>): seq<ToolFile> {
    if images == [] then []
    else (if Pictured(images[0], partsFor) then [images[0]] else []) + PicturedOf(images[1..], partsFor)
  }

  lemma PicturedUnfolds(image: ToolFile, images: seq<ToolFile>, partsFor: ToolFile -> seq<Part>)
    ensures PicturedOf([image] + images, partsFor)
         == (if Pictured(image, partsFor) then [image] else []) + PicturedOf(images, partsFor)
  {
    assert ([image] + images)[1..] == images;
  }

  lemma {:induction false} PicturedConcat(a: seq<ToolFile>, b: seq<ToolFile>, partsFor: ToolFile -> seq<Part>)
    ensures PicturedOf(a + b, partsFor) == PicturedOf(a, partsFor) + PicturedOf(b, partsFor)
  {
    if a == [] {
      assert a + b == b;
    } else {
      PicturedConcat(a[1..], b, partsFor);
      PicturedUnfolds(a[0], a[1..] + b, partsFor);
      assert a + b == [a[0]] + (a[1..] + b);
      Assoc(if Pictured(a[0], partsFor) then [a[0]] else [], PicturedOf(a[1..], partsFor), PicturedOf(b, partsFor));
    }
  }

  /** No more are pictured than there are, and as many exactly when all are. */
  lemma {:induction false} PicturedAtMost(images: seq<ToolFile>, partsFor: ToolFile -> seq<Part>)
    ensures |PicturedOf(images, partsFor)| <= |images|
    ensures |PicturedOf(images, partsFor)| == |images| <==> AllPictured(images, partsFor)
  {
    if images != [] {
      PicturedAtMost(images[1..], partsFor);
      assert images == [images[0]] + images[1..];
    }
  }

  /** One run's messages hold one picture for each pictured image shown. */
  lemma {:induction false} PicsOfFiles(files: seq<ToolFile>, sees: bool, partsFor: ToolFile -> seq<Part>)
    requires OneAtMost(partsFor, sees)
    ensures Pics(PartsOf(files, partsFor)) == |PicturedOf(Images(files, sees), partsFor)|
  {
    if files != [] {
      var f, rest := files[0], Images(files[1..], sees);
      PicsOfFiles(files[1..], sees, partsFor);
      PicsConcat(partsFor(f), PartsOf(files[1..], partsFor));
      if Counts(f, sees) {
        assert ([f] + rest)[1..] == rest;
      } else {
        assert [] + rest == rest;
      }
    }
  }

  /** Pictures of all runs together. */
  function PicsOfRuns(shown: seq<seq<ToolFile>>, partsFor: ToolFile -> seq<Part>): nat {
    if shown == [] then 0
    else PicsOfRuns(shown[..|shown| - 1], partsFor) + Pics(PartsOf(shown[|shown| - 1], partsFor))
  }

  lemma {:induction false} PicsOfGrants(shown: seq<seq<ToolFile>>, sees: bool, partsFor: ToolFile -> seq<Part>)
    requires OneAtMost(partsFor, sees)
    ensures PicsOfRuns(shown, partsFor) == |PicturedOf(AllGranted(shown, sees), partsFor)|
  {
    if shown != [] {
      var n := |shown| - 1;
      PicsOfGrants(shown[..n], sees, partsFor);
      PicsOfFiles(shown[n], sees, partsFor);
      PicturedConcat(AllGranted(shown[..n], sees), Images(shown[n], sees), partsFor);
    }
  }

  /** Pictures in the messages inserted after position i or later. */
  function SentFrom(ms: seq<Message>, ins: map<nat, seq<Part>>, i: nat): nat
    requires i <= |ms|
    decreases |ms| - i
  {
    if i == |ms| then 0 else (if i in ins then Pics(ins[i]) else 0) + SentFrom(ms, ins, i + 1)
  }

  lemma {:induction false} InsertingAdds(ms: seq<Message>, ins: map<nat, seq<Part>>, e: nat, parts: seq<Part>, i: nat)
    requires i <= |ms| && e < |ms| && e !in ins
    ensures SentFrom(ms, ins[e := parts], i) == SentFrom(ms, ins, i) + if i <= e then Pics(parts) else 0
    decreases |ms| - i
  {
    if i < |ms| {
      InsertingAdds(ms, ins, e, parts, i + 1);
    }
  }

  lemma PuttingAdds(ms: seq<Message>, ins: map<nat, seq<Part>>, e: nat, parts: seq<Part>)
    requires e < |ms| && e !in ins
    ensures SentFrom(ms, Put(parts, e, ins), 0) == SentFrom(ms, ins, 0) + Pics(parts)
  {
    if parts != [] {
      InsertingAdds(ms, ins, e, parts, 0);
    }
  }

  /** The inserted messages hold the pictures of all runs, each once. */
  lemma {:induction false} InsertionsHoldThePics(ms: seq<Message>, runs: seq<Run>, sees: bool, left: int,
                                                 partsFor: ToolFile -> seq<Part>, acc: map<nat, seq<Part>>)
    requires Ordered(runs) && forall r | 0 <= r < |runs| :: runs[r].end < |ms| && runs[r].end !in acc
    ensures SentFrom(ms, Insertions(runs, sees, left, partsFor, acc), 0)
         == SentFrom(ms, acc, 0) + PicsOfRuns(Allotted(runs, sees, left), partsFor)
    decreases |runs|
  {
    if runs != [] {
      var n := |runs| - 1;
      var next := Remaining(runs[n].files, sees, left);
      var parts := PartsOf(Shown(runs[n].files, sees, left), partsFor);
      PuttingAdds(ms, acc, runs[n].end, parts);
      InsertionsHoldThePics(ms, runs[..n], sees, next, partsFor, Put(parts, runs[n].end, acc));
      assert Allotted(runs, sees, left)[..n] == Allotted(runs[..n], sees, next);
    }
  }

  /** Pictures in the messages one model call is given by the modifier. */
  function Sent(ms: seq<Message>, sees: bool, maxImages: int, partsFor: ToolFile -> seq<Part>): nat {
    SentFrom(ms, InsertionsOf(ms, sees, maxImages, partsFor), 0)
  }

  function GrantedIn(ms: seq<Message>, sees: bool, maxImages: int): seq<ToolFile> {
    Granted(WithFiles(Runs(ms, |ms|)), sees, maxImages)
  }

  lemma {:induction false} NothingSent(ms: seq<Message>, i: nat)
    requires i <= |ms|
    ensures SentFrom(ms, map[], i) == 0
    decreases |ms| - i
  {
    if i < |ms| {
      NothingSent(ms, i + 1);
    }
  }

  /** One picture is sent for each granted image that gives one. */
  lemma SentAreThePictured(ms: seq<Message>, sees: bool, maxImages: int, partsFor: ToolFile -> seq<Part>)
    requires OneAtMost(partsFor, sees)
    ensures Sent(ms, sees, maxImages, partsFor) == |PicturedOf(GrantedIn(ms, sees, maxImages), partsFor)|
  {
    var runs := WithFiles(Runs(ms, |ms|));
    RunsEndInside(ms);
    NothingSent(ms, 0);
    InsertionsHoldThePics(ms, runs, sees, maxImages, partsFor, map[]);
    PicsOfGrants(Allotted(runs, sees, maxImages), sees, partsFor);
  }

  /** One model call is sent at most min(maxImages, images of all tool results) pictures, and
      as many exactly when every granted image gives one. */
  lemma PicturesSent(ms: seq<Message>, sees: bool, maxImages: int, partsFor: ToolFile -> seq<Part>)
    requires OneAtMost(partsFor, sees)
    ensures var most := Least(Budget(maxImages), |Images(FilesOf(ms, |ms|), sees)|);
            && Sent(ms, sees, maxImages, partsFor) <= most
            && (Sent(ms, sees, maxImages, partsFor) == most <==> AllPictured(GrantedIn(ms, sees, maxImages), partsFor))
  {
    SentAreThePictured(ms, sees, maxImages, partsFor);
    PicturedAtMost(GrantedIn(ms, sees, maxImages), partsFor);
    ConversationBudgetIsSpent(ms, sees, maxImages);
  }

  lemma RunsEndInside(ms: seq<Message>)
    ensures var runs := WithFiles(Runs(ms, |ms|)); Ordered(runs) && forall r | 0 <= r < |runs| :: runs[r].end < |ms|
  {
    var all := Runs(ms, |ms|);
    RunsAreOrdered(ms, |ms|);
    WithFilesKeepsOrder(all);
    forall r | 0 <= r < |WithFiles(all)|
      ensures WithFiles(all)[r].end < |ms|
    {
      var k := WithFilesFrom(all, r);
    }
  }

  // ---- Which are sent

  /** The places of those granted images that give a picture. */
  function SelectPictured(places: seq<int>, images: seq<ToolFile>, partsFor: ToolFile -> seq<Part>): seq<int>
    requires |places| == |images|
  {
    if images == [] then []
    else (if Pictured(images[0], partsFor) then [places[0]] else []) + SelectPictured(places[1..], images[1..], partsFor)
  }

  /** No image that gives a picture comes before one that gives none. */
  predicate PicturedComeLast(images: seq<ToolFile>, partsFor: ToolFile -> seq<Part>) {
    images == []
    || if Pictured(images[0], partsFor) then AllPictured(images, partsFor) else PicturedComeLast(images[1..], partsFor)
  }

  lemma {:induction false} SelectedCount(places: seq<int>, images: seq<ToolFile>, partsFor: ToolFile -> seq<Part>)
    requires |places| == |images|
    ensures |SelectPictured(places, images, partsFor)| == |PicturedOf(images, partsFor)| <= |images|
    ensures |SelectPictured(places, images, partsFor)| == |images| <==> AllPictured(images, partsFor)
    ensures AllPictured(images, partsFor) ==> SelectPictured(places, images, partsFor) == places
  {
    PicturedAtMost(images, partsFor);
    if images != [] {
      SelectedCount(places[1..], images[1..], partsFor);
      assert images == [images[0]] + images[1..] && places == [places[0]] + places[1..];
    }
  }

  lemma SelectUnfolds(place: int, image: ToolFile, places: seq<int>, images: seq<ToolFile>, partsFor: ToolFile -> seq<Part>)
    requires |places| == |images|
    ensures SelectPictured([place] + places, [image] + images, partsFor)
         == (if Pictured(image, partsFor) then [place] else []) + SelectPictured(places, images, partsFor)
  {
    assert ([place] + places)[1..] == places && ([image] + images)[1..] == images;
  }

  lemma SpanFrom(from: nat, n: nat, selected: seq<int>)
    requires selected != [] && selected[0] == from && IsLastSpan(selected, from + n)
    ensures |selected| == n
  {
    assert Span(from + n - |selected|, |selected|)[0] == selected[0];
  }

  lemma SelectedFromTheFirst(from: nat, images: seq<ToolFile>, partsFor: ToolFile -> seq<Part>, selected: seq<int>)
    requires images != [] && Pictured(images[0], partsFor)
    requires selected == SelectPictured(Span(from, |images|), images, partsFor)
    ensures IsLastSpan(selected, from + |images|) <==> AllPictured(images, partsFor)
  {
    SelectedCount(Span(from, |images|), images, partsFor);
    assert selected[0] == from;
    if IsLastSpan(selected, from + |images|) {
      SpanFrom(from, |images|, selected);
    }
  }

  /** Of consecutive places up to the last, those selected are the last ones exactly when the
      pictured images come last. */
  lemma {:induction false} SelectedIsLastIff(from: nat, images: seq<ToolFile>, partsFor: ToolFile -> seq<Part>)
    ensures IsLastSpan(SelectPictured(Span(from, |images|), images, partsFor), from + |images|)
       <==> PicturedComeLast(images, partsFor)
    decreases |images|
  {
    if images != [] {
      var places, rest := Span(from, |images|), Span(from + 1, |images| - 1);
      if Pictured(images[0], partsFor) {
        SelectedFromTheFirst(from, images, partsFor, SelectPictured(places, images, partsFor));
      } else {
        SelectedIsLastIff(from + 1, images[1..], partsFor);
        assert places == [from] + rest;
        SelectUnfolds(from, images[0], rest, images[1..], partsFor);
        assert images == [images[0]] + images[1..];
      }
    }
  }

  /** How many images of the run the budget runs out in are granted. */
  function SplitSize(runs: seq<Run>, sees: bool, left: int): nat {
    if left <= 0 || runs == [] then 0
    else if left < OwnImages(runs, sees) then left
    else SplitSize(runs[..|runs| - 1], sees, left - OwnImages(runs, sees))
  }

  /** Where they are. */
  function SplitAt(runs: seq<Run>, sees: bool, left: int): nat {
    if runs == [] then 0
    else if left <= 0 || left < OwnImages(runs, sees) then |AllImages(runs[..|runs| - 1], sees)|
    else SplitAt(runs[..|runs| - 1], sees, left - OwnImages(runs, sees))
  }

  /** `s` places from `at` on and then, behind a gap, all places to the end; without the first
      part there need be no gap. */
  predicate Shaped(places: seq<int>, at: nat, s: nat, total: nat) {
    && s <= |places| <= total
    && places == Span(at, s) + Span(total - (|places| - s), |places| - s)
    && (s > 0 ==> at + s < total - (|places| - s))
  }

  lemma ShapeOf(places: seq<int>, at: nat, s: nat, k: nat, total: nat)
    requires Shaped(places, at, s, total) && |places| == s + k
    ensures k <= total && places == Span(at, s) + Span(total - k, k) && (s > 0 ==> at + s < total - k)
  {
    assert |places| - s == k;
  }

  lemma HeadIsShaped(before: nat, own: nat, left: nat)
    requires 0 < left < own
    ensures Shaped([] + Span(before, left), before, left, before + own)
  {
    assert [] + Span(before, left) == Span(before, left) == Span(before, left) + Span(before + own, 0);
  }

  lemma ShapeGrows(places: seq<int>, at: nat, s: nat, before: nat, own: nat)
    requires Shaped(places, at, s, before)
    ensures Shaped(places + Span(before, own), at, s, before + own)
  {
    var tail := |places| - s;
    assert Span(before - tail, tail) + Span(before, own) == Span(before - tail, tail + own);
    Assoc(Span(at, s), Span(before - tail, tail), Span(before, own));
  }

  /** The budget runs out in the last run, or goes on to the earlier ones. */
  lemma SplitHere(runs: seq<Run>, sees: bool, left: int)
    requires runs != [] && 0 < left < OwnImages(runs, sees)
    ensures Shaped(GrantedAt(runs, sees, left), SplitAt(runs, sees, left), SplitSize(runs, sees, left),
                   |AllImages(runs, sees)|)
  {
    var n := |runs| - 1;
    NothingGrantedAt(runs[..n], sees, 0);
    HeadIsShaped(|AllImages(runs[..n], sees)|, OwnImages(runs, sees), left);
  }

  lemma WholeRunIsGranted(runs: seq<Run>, sees: bool, left: int, rest: nat)
    requires runs != [] && 0 < left && left == OwnImages(runs, sees) + rest
    ensures var n := |runs| - 1; var before := |AllImages(runs[..n], sees)|;
            && GrantedAt(runs, sees, left) == GrantedAt(runs[..n], sees, rest) + Span(before, OwnImages(runs, sees))
            && |AllImages(runs, sees)| == before + OwnImages(runs, sees)
            && SplitAt(runs, sees, left) == SplitAt(runs[..n], sees, rest)
            && SplitSize(runs, sees, left) == SplitSize(runs[..n], sees, rest)
  {
  }

  /** The granted places: those in the run the budget runs out in, and all places of later runs. */
  lemma {:induction false} GrantedShape(runs: seq<Run>, sees: bool, left: int)
    ensures Shaped(GrantedAt(runs, sees, left), SplitAt(runs, sees, left), SplitSize(runs, sees, left),
                   |AllImages(runs, sees)|)
  {
    if left <= 0 {
      NothingGrantedAt(runs, sees, left);
    } else if runs != [] {
      var n, rest := |runs| - 1, left - OwnImages(runs, sees);
      if rest < 0 {
        SplitHere(runs, sees, left);
      } else {
        GrantedShape(runs[..n], sees, rest);
        WholeRunIsGranted(runs, sees, left, rest);
        ShapeGrows(GrantedAt(runs[..n], sees, rest), SplitAt(runs[..n], sees, rest), SplitSize(runs[..n], sees, rest),
                   |AllImages(runs[..n], sees)|, OwnImages(runs, sees));
      }
    }
  }

  lemma {:induction false} SplitSizeIff(runs: seq<Run>, sees: bool, left: int)
    ensures SplitSize(runs, sees, left) > 0 <==> SplitsARun(runs, sees, left)
  {
    if left > 0 && runs != [] && left >= OwnImages(runs, sees) {
      SplitSizeIff(runs[..|runs| - 1], sees, left - OwnImages(runs, sees));
    }
  }

  /** The places, among all images, of the pictures sent. */
  function SentAt(runs: seq<Run>, sees: bool, left: int, partsFor: ToolFile -> seq<Part>): seq<int> {
    GrantedByPlace(runs, sees, left);
    SelectPictured(GrantedAt(runs, sees, left), Granted(runs, sees, left), partsFor)
  }

  lemma {:induction false} SelectConcat(p: seq<int>, a: seq<ToolFile>, q: seq<int>, b: seq<ToolFile>,
                                        partsFor: ToolFile -> seq<Part>)
    requires |p| == |a| && |q| == |b|
    ensures SelectPictured(p + q, a + b, partsFor) == SelectPictured(p, a, partsFor) + SelectPictured(q, b, partsFor)
  {
    if a == [] {
      assert p + q == q && a + b == b;
    } else {
      SelectConcat(p[1..], a[1..], q, b, partsFor);
      SelectUnfolds(p[0], a[0], p[1..] + q, a[1..] + b, partsFor);
      assert p + q == [p[0]] + (p[1..] + q) && a + b == [a[0]] + (a[1..] + b);
      Assoc(if Pictured(a[0], partsFor) then [p[0]] else [], SelectPictured(p[1..], a[1..], partsFor),
            SelectPictured(q, b, partsFor));
    }
  }

  predicate NonePictured(images: seq<ToolFile>, partsFor: ToolFile -> seq<Part>) {
    forall f | f in images :: !Pictured(f, partsFor)
  }

  lemma {:induction false} SelectedAreAmong(at: nat, images: seq<ToolFile>, partsFor: ToolFile -> seq<Part>)
    ensures var selected := SelectPictured(Span(at, |images|), images, partsFor);
            && (selected == [] <==> NonePictured(images, partsFor))
            && forall i | 0 <= i < |selected| :: at <= selected[i] < at + |images|
    decreases |images|
  {
    if images != [] {
      assert Span(at, |images|)[1..] == Span(at + 1, |images| - 1);
      SelectedAreAmong(at + 1, images[1..], partsFor);
      assert images == [images[0]] + images[1..];
    }
  }

  lemma GapIsNoLastSpan(early: seq<int>, late: seq<int>, end: nat, total: nat)
    requires early != [] && (forall i | 0 <= i < |early| :: early[i] < end) && end + |late| < total
    ensures !IsLastSpan(early + late, total)
  {
    var all := early + late;
    assert all[|early| - 1] == early[|early| - 1];
    assert all[|early| - 1] != Span(total - |all|, |all|)[|early| - 1];
  }

  lemma JoinIsLastIff(early: seq<int>, late: seq<int>, end: nat, total: nat)
    requires early != [] ==> (forall i | 0 <= i < |early| :: early[i] < end) && end + |late| < total
    ensures IsLastSpan(early + late, total) <==> early == [] && IsLastSpan(late, total)
  {
    if early == [] {
      assert early + late == late;
    } else {
      GapIsNoLastSpan(early, late, end, total);
    }
  }

  lemma EarlyOnes(early: seq<int>, at: nat, a: seq<ToolFile>, partsFor: ToolFile -> seq<Part>)
    requires early == SelectPictured(Span(at, |a|), a, partsFor)
    ensures early == [] <==> NonePictured(a, partsFor)
    ensures forall i | 0 <= i < |early| :: early[i] < at + |a|
  {
    SelectedAreAmong(at, a, partsFor);
  }

  lemma LateOnes(late: seq<int>, from: nat, b: seq<ToolFile>, total: nat, partsFor: ToolFile -> seq<Part>)
    requires late == SelectPictured(Span(from, |b|), b, partsFor) && from + |b| == total
    ensures |late| <= |b| && (IsLastSpan(late, total) <==> PicturedComeLast(b, partsFor))
  {
    SelectedCount(Span(from, |b|), b, partsFor);
    SelectedIsLastIff(from, b, partsFor);
  }

  lemma TwoPartsAreLastIff(early: seq<int>, at: nat, a: seq<ToolFile>, late: seq<int>, b: seq<ToolFile>, total: nat,
                           partsFor: ToolFile -> seq<Part>)
    requires |b| <= total && (a != [] ==> at + |a| < total - |b|)
    requires early == SelectPictured(Span(at, |a|), a, partsFor)
    requires late == SelectPictured(Span(total - |b|, |b|), b, partsFor)
    ensures IsLastSpan(early + late, total) <==> NonePictured(a, partsFor) && PicturedComeLast(b, partsFor)
  {
    EarlyOnes(early, at, a, partsFor);
    LateOnes(late, total - |b|, b, total, partsFor);
    JoinIsLastIff(early, late, at + |a|, total);
  }

  lemma SelectShaped(places: seq<int>, at: nat, total: nat, a: seq<ToolFile>, b: seq<ToolFile>,
                     partsFor: ToolFile -> seq<Part>)
      returns (early: seq<int>, late: seq<int>)
    requires |places| == |a| + |b| && Shaped(places, at, |a|, total)
    ensures early + late == SelectPictured(places, a + b, partsFor)
    ensures early == SelectPictured(Span(at, |a|), a, partsFor)
    ensures late == SelectPictured(Span(total - |b|, |b|), b, partsFor)
  {
    ShapeOf(places, at, |a|, |b|, total);
    early := SelectPictured(Span(at, |a|), a, partsFor);
    late := SelectPictured(Span(total - |b|, |b|), b, partsFor);
    SelectConcat(Span(at, |a|), a, Span(total - |b|, |b|), b, partsFor);
  }

  /** Of places so shaped, those selected are the last ones exactly when none of the split run's
      images `a` gives a picture and among the others the pictured ones come last. */
  lemma ShapedSelectionIsLastIff(places: seq<int>, at: nat, total: nat, a: seq<ToolFile>, b: seq<ToolFile>,
                                 partsFor: ToolFile -> seq<Part>)
    requires |places| == |a| + |b| && Shaped(places, at, |a|, total)
    ensures IsLastSpan(SelectPictured(places, a + b, partsFor), total)
       <==> NonePictured(a, partsFor) && PicturedComeLast(b, partsFor)
  {
    var early, late := SelectShaped(places, at, total, a, b, partsFor);
    TwoPartsAreLastIff(early, at, a, late, b, total, partsFor);
  }

  /** The pictures sent are of the most recent images exactly when no image granted in the run
      the budget runs out in gives one, and among the other granted images none that gives one
      comes before one that does not. */
  lemma MostRecentAreSentIff(runs: seq<Run>, sees: bool, left: int, partsFor: ToolFile -> seq<Part>)
    ensures var s, granted := SplitSize(runs, sees, left), Granted(runs, sees, left);
            && s <= |granted| && (s > 0 <==> SplitsARun(runs, sees, left))
            && (IsLastSpan(SentAt(runs, sees, left, partsFor), |AllImages(runs, sees)|)
                <==> NonePictured(granted[..s], partsFor) && PicturedComeLast(granted[s..], partsFor))
  {
    GrantedByPlace(runs, sees, left);
    GrantedShape(runs, sees, left);
    SplitSizeIff(runs, sees, left);
    var s, granted := SplitSize(runs, sees, left), Granted(runs, sees, left);
    assert granted == granted[..s] + granted[s..];
    ShapedSelectionIsLastIff(GrantedAt(runs, sees, left), SplitAt(runs, sees, left), |AllImages(runs, sees)|,
                             granted[..s], granted[s..], partsFor);
  }

  /** There are as many of these places as pictures sent, and each is the place of an image
      that gives one. */
  lemma SentAtArePictured(ms: seq<Message>, sees: bool, maxImages: int, partsFor: ToolFile -> seq<Part>)
    requires OneAtMost(partsFor, sees)
    ensures var at, all := SentAt(WithFiles(Runs(ms, |ms|)), sees, maxImages, partsFor), Images(FilesOf(ms, |ms|), sees);
            |at| == Sent(ms, sees, maxImages, partsFor) && ArePictured(at, all, partsFor)
  {
    var runs := WithFiles(Runs(ms, |ms|));
    WithFilesKeepsImages(Runs(ms, |ms|), sees);
    RunsHoldTheImages(ms, |ms|, sees);
    SentAreThePictured(ms, sees, maxImages, partsFor);
    GrantedByPlace(runs, sees, maxImages);
    SelectedCount(GrantedAt(runs, sees, maxImages), Granted(runs, sees, maxImages), partsFor);
    SelectedArePictured(GrantedAt(runs, sees, maxImages), Granted(runs, sees, maxImages),
                        Images(FilesOf(ms, |ms|), sees), partsFor);
  }

  predicate ArePictured(at: seq<int>, all: seq<ToolFile>, partsFor: ToolFile -> seq<Part>) {
    forall i | 0 <= i < |at| :: 0 <= at[i] < |all| && Pictured(all[at[i]], partsFor)
  }

  lemma {:induction false} SelectedArePictured(places: seq<int>, images: seq<ToolFile>, all: seq<ToolFile>,
                                               partsFor: ToolFile -> seq<Part>)
    requires PickedAt(images, places, all)
    ensures ArePictured(SelectPictured(places, images, partsFor), all, partsFor)
  {
    if images != [] {
      SelectedArePictured(places[1..], images[1..], all, partsFor);
      var own := if Pictured(images[0], partsFor) then [places[0]] else [];
      ArePicturedConcat(own, SelectPictured(places[1..], images[1..], partsFor), all, partsFor);
    }
  }

  lemma ArePicturedConcat(a: seq<int>, b: seq<int>, all: seq<ToolFile>, partsFor: ToolFile -> seq<Part>)
    requires ArePictured(a, all, partsFor) && ArePictured(b, all, partsFor)
    ensures ArePictured(a + b, all, partsFor)
  {
    forall i | 0 <= i < |a + b|
      ensures 0 <= (a + b)[i] < |all| && Pictured(all[(a + b)[i]], partsFor)
    {
      assert (a + b)[i] == if i < |a| then a[i] else b[i - |a|];
    }
  }

  // ---- With the parts the original builds

  predicate Showable(f: ToolFile, s: Surroundings) {
    f.size <= s.maxImageBytes && s.read(f).Got?
  }

  lemma BuiltPartsAreOneAtMost(s: Surroundings)
    ensures OneAtMost(f => PartsFor(f, s), s.sees)
    ensures forall f :: Pictured(f, g => PartsFor(g, s)) <==> Counts(f, s.sees) && Showable(f, s)
  {
    forall f
      ensures Pics(PartsFor(f, s)) <= (if Counts(f, s.sees) then 1 else 0)
      ensures Pics(PartsFor(f, s)) == 1 <==> Counts(f, s.sees) && Showable(f, s)
    {
      PictureIff(f, s);
    }
  }

  lemma {:induction false} ImagesCount(files: seq<ToolFile>, sees: bool)
    ensures forall f | f in Images(files, sees) :: Counts(f, sees)
  {
    if files != [] {
      ImagesCount(files[1..], sees);
    }
  }

  lemma {:induction false} GrantedCount(shown: seq<seq<ToolFile>>, sees: bool)
    ensures forall f | f in AllGranted(shown, sees) :: Counts(f, sees)
  {
    if shown != [] {
      GrantedCount(shown[..|shown| - 1], sees);
      ImagesCount(shown[|shown| - 1], sees);
    }
  }

  /** The budget is used to the full exactly when every granted image is small enough and can be read. */
  lemma BudgetIsUsedIff(ms: seq<Message>, maxImages: int, s: Surroundings)
    ensures var most := Least(Budget(maxImages), |Images(FilesOf(ms, |ms|), s.sees)|);
            var sent := Sent(ms, s.sees, maxImages, f => PartsFor(f, s));
            && sent <= most
            && (sent == most <==> forall f | f in GrantedIn(ms, s.sees, maxImages) :: Showable(f, s))
  {
    BuiltPartsAreOneAtMost(s);
    PicturesSent(ms, s.sees, maxImages, f => PartsFor(f, s));
    GrantedCount(Allotted(WithFiles(Runs(ms, |ms|)), s.sees, maxImages), s.sees);
  }

  // ---- Inputs on which the comment fails

  /** Two results with one image each, with the model's words in between. */
  function TwoResults(first: ToolFile, second: ToolFile): seq<Message> {
    [ToolResult(Plain(""), "1", "tool", [first]), AI(Plain("more"), []), ToolResult(Plain(""), "2", "tool", [second])]
  }

  lemma RunsOfThree(ms: seq<Message>)
    requires |ms| == 3 && ms[0].ToolResult? && !ms[1].ToolResult? && ms[2].ToolResult?
    ensures Runs(ms, 3) == [Run(0, ms[0].files), Run(2, ms[2].files)]
  {
    assert Runs(ms, 1) == [Run(0, ms[0].files)] by { assert Runs(ms, 0) == []; }
    assert Runs(ms, 2) == Runs(ms, 1);
  }

  lemma BothHaveFiles(one: Run, two: Run)
    requires one.files != [] && two.files != []
    ensures WithFiles([one, two]) == [one, two]
  {
    assert [one, two][..1] == [one] && [one][..0] == [];
    assert WithFiles([one]) == [one];
  }

  lemma OneImage(f: ToolFile)
    requires f.IsImage()
    ensures Images([f], true) == [f]
  {
    assert [f][1..] == [];
  }

  /** A budget of one goes to the last of two images. */
  lemma GrantsOfTwo(first: Run, b: ToolFile)
    requires b.IsImage()
    ensures Granted([first, Run(2, [b])], true, 1) == [b]
    ensures !SplitsARun([first, Run(2, [b])], true, 1)
  {
    var runs := [first, Run(2, [b])];
    OneImage(b);
    assert runs[..1] == [first];
    GrantedUnfolds(runs, true, 1, [b], 1);
    BudgetIsSpent([first], true, 0);
    assert [] + [b][..1] == [b];
  }

  /** An image over the size limit is charged and only named; with a budget of one the image
      before it, which would fit, is not sent either: no picture at all, and no run is split. */
  lemma OversizedImageUsesTheBudget(small: ToolFile, large: ToolFile, s: Surroundings)
    requires s.sees && small.IsImage() && large.IsImage() && Showable(small, s) && large.size > s.maxImageBytes
    ensures var ms := TwoResults(small, large);
            && GrantedIn(ms, true, 1) == [large] && !SplitsARun(WithFiles(Runs(ms, |ms|)), true, 1)
            && Sent(ms, true, 1, f => PartsFor(f, s)) == 0 && Pictured(small, f => PartsFor(f, s))
  {
    var ms := TwoResults(small, large);
    RunsOfThree(ms);
    BothHaveFiles(Run(0, [small]), Run(2, [large]));
    GrantsOfTwo(Run(0, [small]), large);
    BuiltPartsAreOneAtMost(s);
    BudgetIsUsedIff(ms, 1, s);
    assert large in [large];
  }

  /** The one image of each run. */
  predicate OneImageEach(runs: seq<Run>, images: seq<ToolFile>) {
    |runs| == |images| && forall r | 0 <= r < |runs| :: runs[r].files == [images[r]] && images[r].IsImage()
  }

  lemma {:induction false} OneEachIsUnsplit(runs: seq<Run>, images: seq<ToolFile>)
    requires OneImageEach(runs, images)
    ensures !SplitsARun(runs, true, |runs|) && AllImages(runs, true) == images
    decreases |runs|
  {
    if runs != [] {
      var n := |runs| - 1;
      OneImage(images[n]);
      OneEachIsUnsplit(runs[..n], images[..n]);
      assert images == images[..n] + [images[n]];
    }
  }

  lemma AllArePicked(picked: seq<ToolFile>, all: seq<ToolFile>)
    requires PickedAt(picked, Span(0, |all|), all)
    ensures picked == all
  {
    assert forall i | 0 <= i < |all| :: Span(0, |all|)[i] == i;
  }

  lemma LastOfAll(places: seq<int>, n: nat)
    requires |places| == n && IsLastSpan(places, n)
    ensures places == Span(0, n)
  {
  }

  lemma OneEachIsGrantedAt(runs: seq<Run>, images: seq<ToolFile>)
    requires OneImageEach(runs, images)
    ensures GrantedAt(runs, true, |runs|) == Span(0, |runs|)
  {
    OneEachIsUnsplit(runs, images);
    MostRecentWinUnlessARunIsSplit(runs, true, |runs|);
    BudgetIsSpent(runs, true, |runs|);
    GrantedByPlace(runs, true, |runs|);
    LastOfAll(GrantedAt(runs, true, |runs|), |runs|);
  }

  lemma OneEachIsGranted(runs: seq<Run>, images: seq<ToolFile>)
    requires OneImageEach(runs, images)
    ensures Granted(runs, true, |runs|) == images
  {
    OneEachIsUnsplit(runs, images);
    OneEachIsGrantedAt(runs, images);
    GrantedByPlace(runs, true, |runs|);
    AllArePicked(Granted(runs, true, |runs|), images);
  }

  /** Three runs with one image each, the middle one too large: with a budget of three the first
      and the last are sent, though no run is split. */
  lemma OversizedImageLeavesAGap(runs: seq<Run>, images: seq<ToolFile>, s: Surroundings)
    requires s.sees && |images| == 3 && OneImageEach(runs, images)
    requires Showable(images[0], s) && images[1].size > s.maxImageBytes && Showable(images[2], s)
    ensures SentAt(runs, true, 3, f => PartsFor(f, s)) == [0, 2]
    ensures !SplitsARun(runs, true, 3) && !IsLastSpan([0, 2], |AllImages(runs, true)|)
  {
    OneEachIsUnsplit(runs, images);
    OneEachIsGrantedAt(runs, images);
    OneEachIsGranted(runs, images);
    BuiltPartsAreOneAtMost(s);
    SelectOfThree(Span(0, 3), images, f => PartsFor(f, s));
    assert [0, 2][0] != Span(1, 2)[0];
  }

  lemma SelectOfThree(places: seq<int>, images: seq<ToolFile>, partsFor: ToolFile -> seq<Part>)
    requires |places| == |images| == 3
    requires Pictured(images[0], partsFor) && !Pictured(images[1], partsFor) && Pictured(images[2], partsFor)
    ensures SelectPictured(places, images, partsFor) == [places[0], places[2]]
  {
    assert SelectPictured(places[1..][1..], images[1..][1..], partsFor) == [places[2]];
  }
}
