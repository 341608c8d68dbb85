/** What one file a tool returned is shown as (backend/src/agent/tool-media.ts, buildParts). */
module MediaParts {
  import opened JsText
  import opened Options
  import opened ToolMedia
  import opened Transcript

  /** What reading a file, or asking a model about it, gives. */
  datatype Answer = Got(text: string) | Failed(message: string)

  /** The modifier's options and what lies outside of it: the files' bytes as base64, the vision
      model if there is one, and for files that are no images the one text they are shown as, if any. */
  datatype Surroundings = Surroundings(
    sees: bool, maxImageBytes: nat, read: ToolFile -> Answer, describe: Option<(ToolFile, string) -> Answer>,
    other: ToolFile -> Option<Answer>, formatSize: nat -> string)

  function Label(f: ToolFile): string {
    "File " + f.name + " (file_id " + f.fileId + ")"
  }

  function Unreadable(f: ToolFile, message: string): seq<Part> {
    [TextPart(Label(f) + ": could not be read (" + message + ").")]
  }

  function ImageParts(f: ToolFile, s: Surroundings): seq<Part> {
    if !s.sees && s.describe.None? then []
    else if f.size > s.maxImageBytes then
      [TextPart(Label(f) + ": too large to be shown (" + s.formatSize(f.size) + ").")]
    else
      match s.read(f)
      case Failed(message) => Unreadable(f, message)
      case Got(base64) =>
        if s.sees then [TextPart(Label(f) + ":"), ImagePart("data:" + f.mimeType + ";base64," + base64)]
        else Described(f, s.describe.value(f, base64))
  }

  function Described(f: ToolFile, answer: Answer): seq<Part> {
    match answer
    case Failed(message) => Unreadable(f, message)
    case Got(description) => [TextPart(Label(f) + ", as the vision model describes it: " + Trim(description))]
  }

  function OtherParts(f: ToolFile, answer: Option<Answer>): seq<Part> {
    match answer
    case None => []
    case Some(Failed(message)) => Unreadable(f, message)
    case Some(Got(text)) => [TextPart(Label(f) + text)]
  }

  /** The parts of one file; a failure is told in a line of text. */
  function PartsFor(f: ToolFile, s: Surroundings): seq<Part> {
    if f.IsImage() then ImageParts(f, s) else OtherParts(f, s.other(f))
  }

  /** How many pictures the parts hold. */
  function Pics(parts: seq<Part>): nat {
    if parts == [] then 0 else (if parts[0].ImagePart? then 1 else 0) + Pics(parts[1..])
  }

  /** A picture is sent of a file exactly when it is an image, the model sees images, it is not
      too large and it can be read; never more than one. */
  lemma PictureIff(f: ToolFile, s: Surroundings)
    ensures Pics(PartsFor(f, s)) <= 1
    ensures Pics(PartsFor(f, s)) == 1 <==> Counts(f, s.sees) && f.size <= s.maxImageBytes && s.read(f).Got?
  {
    var parts := PartsFor(f, s);
    if |parts| == 1 {
      PicsOfFew(parts[0], parts[0]);
      assert parts == [parts[0]];
    } else if |parts| == 2 {
      PicsOfFew(parts[0], parts[1]);
      assert parts == [parts[0], parts[1]];
    }
  }

  lemma PicsOfFew(a: Part, b: Part)
    ensures Pics([a]) == if a.ImagePart? then 1 else 0
    ensures Pics([a, b]) == Pics([a]) + if b.ImagePart? then 1 else 0
  {
    assert [a][1..] == [] && [a, b][1..] == [b] && [b][1..] == [];
    assert Pics([b]) == if b.ImagePart? then 1 else 0;
  }

  lemma {:induction false} PicsConcat(a: seq<Part>, b: seq<Part>)
    ensures Pics(a + b) == Pics(a) + Pics(b)
  {
    if a == [] {
      assert a + b == b;
    } else {
      assert (a + b)[1..] == a[1..] + b;
      PicsConcat(a[1..], b);
    }
  }

  /** What is told of an image: to a model that sees it, the picture's bytes under its label; to one
      that does not, the vision model's words, or nothing when there is none; and a line that says
      so where it is too large or cannot be read. */
  lemma ImageIsTold(f: ToolFile, s: Surroundings)
    requires f.IsImage()
    ensures var called := "File " + f.name + " (file_id " + f.fileId + ")";
            if !s.sees && s.describe.None? then PartsFor(f, s) == []
            else if f.size > s.maxImageBytes then
              PartsFor(f, s) == [TextPart(called + ": too large to be shown (" + s.formatSize(f.size) + ").")]
            else if s.read(f).Failed? then
              PartsFor(f, s) == [TextPart(called + ": could not be read (" + s.read(f).message + ").")]
            else if s.sees then
              PartsFor(f, s) == [TextPart(called + ":"), ImagePart("data:" + f.mimeType + ";base64," + s.read(f).text)]
            else
              var answer := s.describe.value(f, s.read(f).text);
              PartsFor(f, s)
              == [TextPart(called + if answer.Failed? then ": could not be read (" + answer.message + ")."
                                   else ", as the vision model describes it: " + Trim(answer.text))]
  {
    var called := "File " + f.name + " (file_id " + f.fileId + ")";
    assert Label(f) == called;
    var answer := s.read(f);
    if s.describe.Some? && answer.Got? {
      DescribedIs(f, s.describe.value(f, answer.text));
    }
  }

  lemma DescribedIs(f: ToolFile, answer: Answer)
    ensures Described(f, answer)
         == [TextPart(Label(f) + if answer.Failed? then ": could not be read (" + answer.message + ")."
                                 else ", as the vision model describes it: " + Trim(answer.text))]
  {
    if answer.Failed? {
      assert Label(f) + ": could not be read (" + answer.message + ")."
          == Label(f) + (": could not be read (" + answer.message + ").");
    } else {
      assert Label(f) + ", as the vision model describes it: " + Trim(answer.text)
          == Label(f) + (", as the vision model describes it: " + Trim(answer.text));
    }
  }

  /** Of any other file: nothing, its one text under its label, or why there is none. */
  lemma OtherIsTold(f: ToolFile, s: Surroundings)
    requires !f.IsImage()
    ensures var called := "File " + f.name + " (file_id " + f.fileId + ")";
            match s.other(f)
            case None => PartsFor(f, s) == []
            case Some(Got(text)) => PartsFor(f, s) == [TextPart(called + text)]
            case Some(Failed(message)) => PartsFor(f, s) == [TextPart(called + ": could not be read (" + message + ").")]
  {
    assert Label(f) == "File " + f.name + " (file_id " + f.fileId + ")";
  }
}
