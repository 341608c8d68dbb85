/** The user messages that show the model the files its tools returned
    (backend/src/agent/tool-media.ts). */
module ToolMedia {
  import opened Collections
  import opened Transcript

  const HEADING :=
    "Content of the files the tool calls above returned (added by the system, not written by the user):"

  /** A run of consecutive tool results: where it ends and the files its messages returned. */
  datatype Run = Run(end: nat, files: seq<ToolFile>)

  /** The runs among the first n messages. */
  function Runs(ms: seq<Message>, n: nat): seq<Run>
    requires n <= |ms|
  {
    if n == 0 then []
    else
      var i := n - 1;
      var runs := Runs(ms, i);
      if !ms[i].ToolResult? then runs
      else if runs != [] && runs[|runs| - 1].end + 1 == i then
        runs[..|runs| - 1] + [Run(i, runs[|runs| - 1].files + ms[i].files)]
      else runs + [Run(i, ms[i].files)]
  }

  function WithFiles(runs: seq<Run>): seq<Run> {
    if runs == [] then []
    else
      var last := runs[|runs| - 1];
      WithFiles(runs[..|runs| - 1]) + (if last.files == [] then [] else [last])
  }

  /** Whether showing the file costs one of the images a model call may hold. */
  predicate Counts(f: ToolFile, sees: bool) {
    f.IsImage() && sees
  }

  /** The files of one run that are shown when `left` images may still be. */
  function Shown(files: seq<ToolFile>, sees: bool, left: int): seq<ToolFile> {
    if files == [] then []
    else if !Counts(files[0], sees) then [files[0]] + Shown(files[1..], sees, left)
    else if left <= 0 then Shown(files[1..], sees, left)
    else [files[0]] + Shown(files[1..], sees, left - 1)
  }

  function Remaining(files: seq<ToolFile>, sees: bool, left: int): int {
    if files == [] then left
    else Remaining(files[1..], sees, if Counts(files[0], sees) && left > 0 then left - 1 else left)
  }

  function PartsOf(files: seq<ToolFile>, partsFor: ToolFile -> seq<Part>): seq<Part> {
    if files == [] then [] else partsFor(files[0]) + PartsOf(files[1..], partsFor)
  }

  /** What is shown of each run; the last run is served first. */
  function Allotted(runs: seq<Run>, sees: bool, left: int): (shown: seq<seq<ToolFile>>)
    ensures |shown| == |runs|
  {
    if runs == [] then []
    else
      var n := |runs| - 1;
      Allotted(runs[..n], sees, Remaining(runs[n].files, sees, left)) + [Shown(runs[n].files, sees, left)]
  }

  function Put(parts: seq<Part>, end: nat, partsByRun: map<nat, seq<Part>>): map<nat, seq<Part>> {
    if parts == [] then partsByRun else partsByRun[end := parts]
  }

  /** The content to insert, by the position of the message it follows. */
  function Insertions(runs: seq<Run>, sees: bool, left: int, partsFor: ToolFile -> seq<Part>,
                      partsByRun: map<nat, seq<Part>>): map<nat, seq<Part>>
    decreases |runs|
  {
    if runs == [] then partsByRun
    else
      var n := |runs| - 1;
      Insertions(runs[..n], sees, Remaining(runs[n].files, sees, left), partsFor,
                 Put(PartsOf(Shown(runs[n].files, sees, left), partsFor), runs[n].end, partsByRun))
  }

  function Media(parts: seq<Part>): Message {
    Human(Parts([TextPart(HEADING)] + parts), "")
  }

  function After(ins: map<nat, seq<Part>>, i: nat): seq<Message> {
    if i in ins then [Media(ins[i])] else []
  }

  /** The messages from position i on, each followed by what is inserted after it. */
  function Weave(ms: seq<Message>, ins: map<nat, seq<Part>>, i: nat): seq<Message>
    requires i <= |ms|
    decreases |ms| - i
  {
    if i == |ms| then [] else [ms[i]] + After(ins, i) + Weave(ms, ins, i + 1)
  }

  function InsertionsOf(ms: seq<Message>, sees: bool, maxImages: int, partsFor: ToolFile -> seq<Part>):
      map<nat, seq<Part>>
  {
    Insertions(WithFiles(Runs(ms, |ms|)), sees, maxImages, partsFor, map[])
  }

  /** One model call's messages. */
  method ToolMediaModifier(system: Message, ms: seq<Message>, sees: bool, maxImages: int,
                           partsFor: ToolFile -> seq<Part>)
      returns (out: seq<Message>)
    ensures out == [system] + Weave(ms, InsertionsOf(ms, sees, maxImages, partsFor), 0)
  {
    var withFiles := RunsWithFiles(ms);
    if withFiles == [] {
      NothingInserted(ms, 0);
      out := [system] + ms;
      return;
    }
    var imagesLeft, k := maxImages, |withFiles|;
    var partsByRun: map<nat, seq<Part>> := map[];
    assert withFiles[..k] == withFiles;
    while k > 0
      invariant 0 <= k <= |withFiles|
      invariant Insertions(withFiles[..k], sees, imagesLeft, partsFor, partsByRun)
             == InsertionsOf(ms, sees, maxImages, partsFor)
    {
      k := k - 1;
      assert withFiles[..k + 1][..k] == withFiles[..k];
      var parts, left := BuildParts(withFiles[k].files, sees, imagesLeft, partsFor);
      imagesLeft := left;
      if parts != [] {
        partsByRun := partsByRun[withFiles[k].end := parts];
      }
    }
    out := InsertMessages(system, ms, partsByRun);
  }

  method InsertMessages(system: Message, ms: seq<Message>, partsByRun: map<nat, seq<Part>>) returns (out: seq<Message>)
    ensures out == [system] + Weave(ms, partsByRun, 0)
  {
    out := [system];
    for i := 0 to |ms|
      invariant out + Weave(ms, partsByRun, i) == [system] + Weave(ms, partsByRun, 0)
    {
      ghost var was := out;
      out := out + [ms[i]];
      if i in partsByRun {
        out := out + [Media(partsByRun[i])];
      }
      assert out == was + ([ms[i]] + After(partsByRun, i));
      Assoc(was, [ms[i]] + After(partsByRun, i), Weave(ms, partsByRun, i + 1));
    }
  }

  method RunsWithFiles(ms: seq<Message>) returns (withFiles: seq<Run>)
    ensures withFiles == WithFiles(Runs(ms, |ms|))
  {
    var runs: seq<Run> := [];
    for i := 0 to |ms|
      invariant runs == Runs(ms, i)
    {
      if ms[i].ToolResult? {
        if runs != [] && runs[|runs| - 1].end + 1 == i {
          runs := runs[|runs| - 1 := Run(i, runs[|runs| - 1].files + ms[i].files)];
        } else {
          runs := runs + [Run(i, ms[i].files)];
        }
      }
    }
    withFiles := [];
    for k := 0 to |runs|
      invariant withFiles == WithFiles(runs[..k])
    {
      assert runs[..k + 1][..k] == runs[..k];
      if runs[k].files != [] {
        withFiles := withFiles + [runs[k]];
      }
    }
    assert runs[..|runs|] == runs;
  }

  method BuildParts(files: seq<ToolFile>, sees: bool, imagesLeft: int, partsFor: ToolFile -> seq<Part>)
      returns (parts: seq<Part>, left: int)
    ensures parts == PartsOf(Shown(files, sees, imagesLeft), partsFor)
    ensures left == Remaining(files, sees, imagesLeft)
  {
    parts, left := [], imagesLeft;
    for i := 0 to |files|
      invariant parts + PartsOf(Shown(files[i..], sees, left), partsFor) == PartsOf(Shown(files, sees, imagesLeft), partsFor)
      invariant Remaining(files[i..], sees, left) == Remaining(files, sees, imagesLeft)
    {
      var file := files[i];
      ghost var was := left;
      assert files[i..][1..] == files[i + 1..];
      if Counts(file, sees) {
        if left <= 0 {
          continue;
        }
        left := left - 1;
      }
      var more := partsFor(file);
      ghost var rest := Shown(files[i + 1..], sees, left);
      assert Shown(files[i..], sees, was) == [file] + rest && ([file] + rest)[1..] == rest;
      Assoc(parts, more, PartsOf(rest, partsFor));
      parts := parts + more;
    }
  }

  lemma {:induction false} NothingInserted(ms: seq<Message>, i: nat)
    requires i <= |ms|
    ensures Weave(ms, map[], i) == ms[i..]
    decreases |ms| - i
  {
    if i < |ms| {
      NothingInserted(ms, i + 1);
    }
  }
}
