/** The sliding window of the text chunker (backend/src/embed/chunking.ts). */
module ChunkWindows {
  import opened Collections
  import opened JsText
  import opened Chunking

  function StepOf(size: nat, overlap: int): (step: nat)
    ensures step >= 1
  {
    if size - overlap > 1 then size - overlap else 1
  }

  function Slice(s: string, i: nat, size: nat): string
    requires i <= |s|
  {
    if i + size < |s| then s[i..i + size] else s[i..]
  }

  /** The windows from `i` on; the one that reaches the end is the last. */
  function Windows(s: string, i: nat, size: nat, step: nat): seq<string>
    requires step >= 1
    decreases |s| - i
  {
    if i >= |s| then []
    else if i + size >= |s| then [Slice(s, i, size)]
    else [Slice(s, i, size)] + Windows(s, i + step, size, step)
  }

  /** The windows after the one at `i`. */
  function NextWindows(s: string, i: nat, size: nat, step: nat): seq<string>
    requires step >= 1
  {
    if i + size >= |s| then [] else Windows(s, i + step, size, step)
  }

  /** `if (chunk.trim())`. */
  function Kept(chunk: string): seq<string> {
    if Trim(chunk) == "" then [] else [chunk]
  }

  function NonBlank(chunks: seq<string>): seq<string> {
    if chunks == [] then [] else Kept(chunks[0]) + NonBlank(chunks[1..])
  }

  method SplitIntoChunks(text: string, size: nat, overlap: int) returns (chunks: seq<string>)
    ensures chunks == NonBlank(Windows(Normalize(text), 0, size, StepOf(size, overlap)))
  {
    var clean := Normalize(text);
    chunks := [];
    if clean == "" {
      return;
    }
    var step := StepOf(size, overlap);
    chunks := SlideWindow(clean, size, step);
  }

  /** The chunks still to come at position i. */
  function Todo(s: string, i: nat, size: nat, step: nat): seq<string>
    requires step >= 1
  {
    NonBlank(Windows(s, i, size, step))
  }

  method SlideWindow(clean: string, size: nat, step: nat) returns (chunks: seq<string>)
    requires step >= 1
    ensures chunks == Todo(clean, 0, size, step)
  {
    chunks := [];
    var i := 0;
    while i < |clean|
      invariant i >= 0
      invariant chunks + Todo(clean, i, size, step) == Todo(clean, 0, size, step)
      decreases |clean| - i
    {
      WindowsStep(clean, i, size, step, chunks);
      chunks := Push(chunks, Slice(clean, i, size));
      if i + size >= |clean| {
        return;
      }
      i := i + step;
    }
    assert Todo(clean, i, size, step) == [] && chunks + [] == chunks;
  }

  /** `if (chunk.trim()) chunks.push(chunk)` */
  function Push(chunks: seq<string>, chunk: string): (r: seq<string>)
    ensures r == chunks + Kept(chunk)
  {
    if Trim(chunk) != "" then chunks + [chunk] else chunks
  }

  lemma WindowsStep(s: string, i: nat, size: nat, step: nat, before: seq<string>)
    requires step >= 1 && i < |s|
    ensures before + Todo(s, i, size, step)
         == if i + size >= |s| then before + Kept(Slice(s, i, size))
            else before + Kept(Slice(s, i, size)) + Todo(s, i + step, size, step)
  {
    var chunk, next := Slice(s, i, size), NextWindows(s, i, size, step);
    NonBlankHead(chunk, next);
    WindowsUnfold(s, i, size, step);
  }

  /** The first chunk, then each later chunk without the `shared` characters it repeats. */
  function Rebuild(chunks: seq<string>, shared: nat): string {
    if chunks == [] then [] else chunks[0] + Rest(chunks[1..], shared)
  }

  function Rest(chunks: seq<string>, shared: nat): string {
    if chunks == [] then []
    else (if |chunks[0]| < shared then [] else chunks[0][shared..]) + Rest(chunks[1..], shared)
  }

  ghost predicate ShortRuns(s: string) {
    Trimmed(s) && forall k: nat :: !BlankRun(s, k)
  }

  /** A slice of normalized text that is three long, or reaches the end, is not blank. */
  lemma SliceHasInk(s: string, i: nat, size: nat)
    requires ShortRuns(s) && i < |s| && size >= 3
    ensures Trim(Slice(s, i, size)) != "" && |Slice(s, i, size)| <= size
  {
    var c := Slice(s, i, size);
    TrimIsEmptyIffBlank(c);
    if i + size < |s| {
      assert !BlankRun(s, i);
      assert c[0] == s[i] && c[1] == s[i + 1] && c[2] == s[i + 2];
    } else {
      assert c[|c| - 1] == s[|s| - 1];
    }
  }

  lemma {:induction false} WindowsKeepAll(s: string, i: nat, size: nat, step: nat)
    requires ShortRuns(s) && size >= 3 && step >= 1
    ensures NonBlank(Windows(s, i, size, step)) == Windows(s, i, size, step)
    decreases |s| - i
  {
    if i < |s| {
      SliceHasInk(s, i, size);
      var next := NextWindows(s, i, size, step);
      if i + size < |s| {
        WindowsKeepAll(s, i + step, size, step);
      }
      assert NonBlank(next) == next;
      NonBlankHead(Slice(s, i, size), next);
      assert Windows(s, i, size, step) == [Slice(s, i, size)] + next;
    }
  }

  lemma {:induction false} WindowsFit(s: string, i: nat, size: nat, step: nat, k: nat)
    requires step >= 1 && k < |Windows(s, i, size, step)|
    ensures |Windows(s, i, size, step)[k]| <= size
    decreases |s| - i
  {
    if k > 0 {
      WindowsFit(s, i + step, size, step, k - 1);
    }
  }

  lemma NonBlankHead(c: string, rest: seq<string>)
    ensures NonBlank([c] + rest) == Kept(c) + NonBlank(rest)
  {
    assert ([c] + rest)[1..] == rest;
  }

  lemma RestHead(c: string, next: seq<string>, shared: nat)
    requires shared <= |c|
    ensures Rest([c] + next, shared) == c[shared..] + Rest(next, shared)
  {
    assert ([c] + next)[1..] == next;
  }

  lemma SliceRest(s: string, i: nat, size: nat, shared: nat)
    requires shared <= size && i + shared <= |s|
    ensures Slice(s, i, size)[shared..] + (if i + size < |s| then s[i + size..] else []) == s[i + shared..]
  {
  }

  lemma WindowsUnfold(s: string, i: nat, size: nat, step: nat)
    requires step >= 1 && i < |s|
    ensures Windows(s, i, size, step) == [Slice(s, i, size)] + NextWindows(s, i, size, step)
  {
  }

  /** With no gap between windows, dropping what each repeats gives the text from `i + shared` on. */
  lemma {:induction false} WindowsRebuild(s: string, i: nat, size: nat, step: nat)
    requires 1 <= step <= size && i + size - step < |s|
    ensures Rest(Windows(s, i, size, step), size - step) == s[i + size - step..]
    ensures Windows(s, i, size, step) == [Slice(s, i, size)] + NextWindows(s, i, size, step)
    decreases |s| - i
  {
    var shared, next := size - step, NextWindows(s, i, size, step);
    WindowsUnfold(s, i, size, step);
    if i + size < |s| {
      WindowsRebuild(s, i + step, size, step);
      assert i + step + shared == i + size;
    }
    RestHead(Slice(s, i, size), next, shared);
    SliceRest(s, i, size, shared);
  }

  lemma RebuildFromStart(n: string, size: nat, step: nat)
    requires 1 <= step <= size && n != ""
    ensures Rebuild(Windows(n, 0, size, step), size - step) == n
  {
    var chunks, shared := Windows(n, 0, size, step), size - step;
    if size < |n| {
      WindowsRebuild(n, step, size, step);
      assert chunks[1..] == Windows(n, step, size, step);
      assert chunks[0] == n[..size] && Rest(chunks[1..], shared) == n[size..];
      assert n == n[..size] + n[size..];
    } else {
      assert chunks == [n] && chunks[1..] == [];
      assert Rest([], shared) == [] && n + [] == n;
    }
  }

  lemma AllWindowsFit(s: string, size: nat, step: nat)
    requires step >= 1
    ensures forall k | 0 <= k < |Windows(s, 0, size, step)| :: |Windows(s, 0, size, step)[k]| <= size
  {
    forall k | 0 <= k < |Windows(s, 0, size, step)|
      ensures |Windows(s, 0, size, step)[k]| <= size
    {
      WindowsFit(s, 0, size, step, k);
    }
  }

  lemma AnyOverlapRebuilds(n: string, size: nat, overlap: nat)
    requires size >= 3
    ensures Rebuild(Windows(n, 0, size, StepOf(size, overlap)), size - StepOf(size, overlap)) == n
  {
    if n != "" {
      RebuildFromStart(n, size, StepOf(size, overlap));
    }
  }

  lemma NormalWindowsKeepAll(text: string, size: nat, step: nat)
    requires size >= 3 && step >= 1
    ensures NonBlank(Windows(Normalize(text), 0, size, step)) == Windows(Normalize(text), 0, size, step)
  {
    NormalizeEffect(text);
    WindowsKeepAll(Normalize(text), 0, size, step);
  }

  /** For a size of 3 or more: no window is blank, none is longer than the size, and for an
      overlap of 0 or more (even one as large as the size) the normalized text is rebuilt
      exactly from the chunks. */
  lemma ChunksRebuildTheText(text: string, size: nat, overlap: int)
    requires size >= 3
    ensures var n, step := Normalize(text), StepOf(size, overlap);
            var chunks := Windows(n, 0, size, step);
            && NonBlank(chunks) == chunks && (forall k | 0 <= k < |chunks| :: |chunks[k]| <= size)
            && (overlap >= 0 ==> Rebuild(chunks, size - step) == n)
  {
    NormalWindowsKeepAll(text, size, StepOf(size, overlap));
    AllWindowsFit(Normalize(text), size, StepOf(size, overlap));
    if overlap >= 0 {
      AnyOverlapRebuilds(Normalize(text), size, overlap);
    }
  }

  // ---- Where the chunks stand

  lemma NextStart(i: nat, step: nat, k: nat)
    requires k > 0
    ensures (i + step) + (k - 1) * step == i + k * step
  {
  }

  /** Window k starts k steps after the first and is as long as the text lets it; the last one is
      the first that reaches the end. */
  lemma {:induction false} WindowAt(s: string, i: nat, size: nat, step: nat, k: nat)
    requires step >= 1 && k < |Windows(s, i, size, step)|
    ensures var from, chunks := i + k * step, Windows(s, i, size, step);
            && from < |s| && chunks[k] == s[from..if from + size < |s| then from + size else |s|]
            && (k + 1 == |chunks| <==> from + size >= |s| || from + step >= |s|)
    decreases k
  {
    WindowsUnfold(s, i, size, step);
    if k > 0 {
      WindowAt(s, i + step, size, step, k - 1);
      NextStart(i, step, k);
    }
  }

  /** For a size of 3 or more, the chunks of the text are its slices of that size, each `size -
      overlap` characters (at least one) after the one before, up to the first that reaches the end. */
  lemma ChunksAreTheSlices(text: string, size: nat, overlap: int, k: nat)
    requires size >= 3
    ensures var n := Normalize(text);
            var chunks := NonBlank(Windows(n, 0, size, StepOf(size, overlap)));
            var step := if overlap < size then size - overlap else 1;
            && (chunks == [] <==> n == "")
            && (k < |chunks| ==>
                  && k * step < |n| && chunks[k] == n[k * step..if k * step + size < |n| then k * step + size else |n|]
                  && (k + 1 == |chunks| <==> k * step + size >= |n| || k * step + step >= |n|))
  {
    var step := StepOf(size, overlap);
    NormalWindowsKeepAll(text, size, step);
    assert step == if overlap < size then size - overlap else 1;
    if k < |Windows(Normalize(text), 0, size, step)| {
      WindowAt(Normalize(text), 0, size, step, k);
    }
  }

  // ---- Blank windows, for any size

  lemma {:induction false} NonBlankConcat(a: seq<string>, b: seq<string>)
    ensures NonBlank(a + b) == NonBlank(a) + NonBlank(b)
  {
    if a == [] {
      assert a + b == b;
    } else {
      NonBlankConcat(a[1..], b);
      assert a + b == [a[0]] + (a[1..] + b);
      NonBlankHead(a[0], a[1..] + b);
      NonBlankHead(a[0], a[1..]);
      Assoc(Kept(a[0]), NonBlank(a[1..]), NonBlank(b));
      assert a == [a[0]] + a[1..];
    }
  }

  /** For any size: of the windows those that are blank are dropped, the others kept as they are. */
  lemma BlankWindowsAreDropped(before: seq<string>, chunk: string, after: seq<string>)
    ensures NonBlank(before + ([chunk] + after))
         == NonBlank(before) + ((if forall c <- chunk :: IsSpace(c) then [] else [chunk]) + NonBlank(after))
    ensures forall c <- NonBlank(before + ([chunk] + after)) :: !Blank(c)
  {
    TrimIsEmptyIffBlank(chunk);
    NonBlankConcat(before, [chunk] + after);
    NonBlankHead(chunk, after);
    NoneIsBlank(before + ([chunk] + after));
  }

  lemma {:induction false} NoneIsBlank(chunks: seq<string>)
    ensures forall c <- NonBlank(chunks) :: !Blank(c)
  {
    if chunks != [] {
      TrimIsEmptyIffBlank(chunks[0]);
      NoneIsBlank(chunks[1..]);
    }
  }
}
