/** The messages of one model request, and the protocol every provider demands of them: each
    assistant message with tool calls is followed at once by the results of exactly those calls,
    in order, and no result stands anywhere else. */
module Transcript {
  datatype ToolFile = ToolFile(fileId: string, name: string, mimeType: string, size: nat) {
    predicate IsImage() {
      mimeType in ["image/jpeg", "image/png", "image/gif", "image/webp"]
    }
  }

  datatype Part = TextPart(text: string) | ImagePart(url: string) | FilePart(data: string)

  datatype Content = Plain(text: string) | Parts(parts: seq<Part>)

  datatype Call = Call(id: string, name: string, args: string)

  datatype Message =
    | System(content: Content)
    | Human(content: Content, id: string)
    | AI(content: Content, calls: seq<Call>)
    | ToolResult(content: Content, callId: string, name: string, files: seq<ToolFile>)

  predicate Answers(m: Message, c: Call) {
    m.ToolResult? && m.callId == c.id
  }

  /** The message at the head is followed by the results of `calls`, in order. */
  predicate Answered(ms: seq<Message>, calls: seq<Call>) {
    1 + |calls| <= |ms| && forall i | 0 <= i < |calls| :: Answers(ms[1 + i], calls[i])
  }

  predicate Paired(ms: seq<Message>)
    decreases |ms|
  {
    if ms == [] then true
    else
      match ms[0]
      case ToolResult(_, _, _, _) => false
      case AI(_, calls) => Answered(ms, calls) && Paired(ms[1 + |calls|..])
      case _ => Paired(ms[1..])
  }

  /** The protocol by positions. */
  lemma {:induction false} PairedByPosition(ms: seq<Message>, i: nat)
    requires Paired(ms) && i < |ms|
    ensures ms[i].AI? ==> Answered(ms[i..], ms[i].calls)
                          && (i + 1 + |ms[i].calls| < |ms| ==> !ms[i + 1 + |ms[i].calls|].ToolResult?)
    ensures ms[i].ToolResult? ==>
      (exists j | 0 <= j < i :: ms[j].AI? && 0 <= i - j - 1 < |ms[j].calls| && Answers(ms[i], ms[j].calls[i - j - 1]))
    decreases |ms|
  {
    var n := if ms[0].AI? then 1 + |ms[0].calls| else 1;
    if i == 0 {
      assert ms[0..] == ms;
    } else if i < n {
      assert Answers(ms[1 + (i - 1)], ms[0].calls[i - 1]);
    } else {
      var t := ms[n..];
      PairedByPosition(t, i - n);
      assert t[i - n..] == ms[i..];
      if ms[i].ToolResult? {
        var j :| 0 <= j < i - n && t[j].AI? && 0 <= i - n - j - 1 < |t[j].calls| && Answers(t[i - n], t[j].calls[i - n - j - 1]);
        assert ms[n + j] == t[j];
      }
    }
  }

  lemma {:induction false} PairedConcat(a: seq<Message>, b: seq<Message>)
    requires Paired(a) && Paired(b)
    ensures Paired(a + b)
    decreases |a|
  {
    if a == [] {
      assert a + b == b;
    } else {
      var n := if a[0].AI? then 1 + |a[0].calls| else 1;
      assert (a + b)[n..] == a[n..] + b;
      PairedConcat(a[n..], b);
    }
  }

  /** A suffix keeps the protocol exactly when it is empty or does not start on a tool result. */
  lemma {:induction false} PairedSuffix(ms: seq<Message>, k: nat)
    requires Paired(ms) && k <= |ms|
    ensures Paired(ms[k..]) <==> k == |ms| || !ms[k].ToolResult?
    decreases |ms|
  {
    if k == 0 {
      assert ms[0..] == ms;
    } else {
      var n := if ms[0].AI? then 1 + |ms[0].calls| else 1;
      if k >= n {
        PairedSuffix(ms[n..], k - n);
        assert ms[n..][k - n..] == ms[k..];
      } else {
        assert Answers(ms[1 + (k - 1)], ms[0].calls[k - 1]) && ms[k..][0] == ms[k];
      }
    }
  }

  /** What `trimMessages` (strategy 'last', startOn 'human') may return: a suffix that is empty
      or starts on a human message. */
  predicate IsTrimmed(ms: seq<Message>, kept: seq<Message>) {
    |kept| <= |ms| && kept == ms[|ms| - |kept|..] && (kept == [] || kept[0].Human?)
  }

  lemma TrimmedStaysPaired(ms: seq<Message>, kept: seq<Message>)
    requires Paired(ms) && IsTrimmed(ms, kept)
    ensures Paired(kept)
  {
    PairedSuffix(ms, |ms| - |kept|);
  }
}
