/** Replay of the stored history as request messages (backend/src/agent/agent.service.ts,
    the first half of buildMessages). */
module Replay {
  import opened Collections
  import opened JsText
  import opened Options
  import opened Transcript

  datatype Role = User | Assistant | OtherRole

  /** `input` is None unless it is an object, `output` None when it is null or absent; both are
      given as the text that `JSON.stringify` makes of them (a string output stands for itself). */
  datatype StoredCall = StoredCall(name: string, input: Option<string>, output: Option<string>)

  datatype StoredMessage = StoredMessage(id: string, role: Role, content: string, calls: seq<StoredCall>)

  function CallId(messageId: string, i: nat): string {
    "call_" + messageId + "_" + Decimal(i)
  }

  function ToolName(c: StoredCall): string {
    if c.name == "" then "tool" else c.name
  }

  function Replayed(m: StoredMessage, i: nat): Call
    requires i < |m.calls|
  {
    Call(CallId(m.id, i), ToolName(m.calls[i]), m.calls[i].input.GetOr("{}"))
  }

  function CallsOf(m: StoredMessage): (calls: seq<Call>)
    ensures |calls| == |m.calls| && forall i | 0 <= i < |calls| :: calls[i] == Replayed(m, i)
  {
    seq(|m.calls|, i requires 0 <= i < |m.calls| => Replayed(m, i))
  }

  function Shortened(full: string, cap: nat): string {
    if |full| <= cap then full
    else full[..cap] + "\n…[output truncated in replay: " + Decimal(|full|) + " total characters]"
  }

  function ResultOf(m: StoredMessage, i: nat, cap: nat): Message
    requires i < |m.calls|
  {
    ToolResult(Plain(Shortened(m.calls[i].output.GetOr("(no result)"), cap)), CallId(m.id, i), ToolName(m.calls[i]), [])
  }

  /** The first n results. */
  function Results(m: StoredMessage, n: nat, cap: nat): (rs: seq<Message>)
    requires n <= |m.calls|
    ensures |rs| == n && forall i | 0 <= i < n :: rs[i] == ResultOf(m, i, cap)
  {
    seq(n, i requires 0 <= i < n => ResultOf(m, i, cap))
  }

  /** The final words of a turn with calls, unless they are blank. */
  function Closing(m: StoredMessage): (closing: seq<Message>)
    ensures Paired(closing)
  {
    if Trim(m.content) == "" then [] else var c := [AI(Plain(m.content), [])]; assert c[1..] == []; c
  }

  function ReplayOne(m: StoredMessage, cap: nat): seq<Message> {
    match m.role
    case User => [Human(Plain(m.content), "")]
    case OtherRole => []
    case Assistant =>
      if m.calls == [] then [AI(Plain(m.content), [])]
      else
        [AI(Plain(""), CallsOf(m))] + Results(m, |m.calls|, cap) + Closing(m)
  }

  function ReplayAll(history: seq<StoredMessage>, cap: nat): seq<Message> {
    if history == [] then []
    else ReplayAll(history[..|history| - 1], cap) + ReplayOne(history[|history| - 1], cap)
  }

  method BuildHistory(history: seq<StoredMessage>, cap: nat) returns (out: seq<Message>)
    ensures out == ReplayAll(history, cap)
  {
    out := [];
    for k := 0 to |history|
      invariant out == ReplayAll(history[..k], cap)
    {
      out := PushReplay(out, history[k], cap);
      assert history[..k + 1][..k] == history[..k];
    }
    assert history[..|history|] == history;
  }

  method PushReplay(before: seq<Message>, msg: StoredMessage, cap: nat) returns (out: seq<Message>)
    ensures out == before + ReplayOne(msg, cap)
  {
    out := before;
    if msg.role == User {
      out := out + [Human(Plain(msg.content), "")];
    } else if msg.role == Assistant {
      if msg.calls != [] {
        out := PushCalls(out, msg, cap);
        if Trim(msg.content) != "" {
          out := out + [AI(Plain(msg.content), [])];
        }
      } else {
        out := out + [AI(Plain(msg.content), [])];
      }
    }
  }

  method PushCalls(before: seq<Message>, msg: StoredMessage, cap: nat) returns (out: seq<Message>)
    ensures out == before + ([AI(Plain(""), CallsOf(msg))] + Results(msg, |msg.calls|, cap))
  {
    var calls := CallsOf(msg);
    out := before + [AI(Plain(""), calls)];
    for i := 0 to |calls|
      invariant out == before + ([AI(Plain(""), calls)] + Results(msg, i, cap))
    {
      var full := msg.calls[i].output.GetOr("(no result)");
      out := out + [ToolResult(Plain(Shortened(full, cap)), calls[i].id, calls[i].name, [])];
      assert Results(msg, i + 1, cap) == Results(msg, i, cap) + [ResultOf(msg, i, cap)];
    }
  }

  /** Whatever was stored — missing outputs, empty names, blank closing texts — the replay obeys
      the protocol. */
  lemma {:induction false} ReplayIsPaired(history: seq<StoredMessage>, cap: nat)
    ensures Paired(ReplayAll(history, cap))
  {
    if history != [] {
      var n := |history| - 1;
      ReplayIsPaired(history[..n], cap);
      ReplayOneIsPaired(history[n], cap);
      PairedConcat(ReplayAll(history[..n], cap), ReplayOne(history[n], cap));
    }
  }

  lemma ReplayOneIsPaired(m: StoredMessage, cap: nat)
    ensures Paired(ReplayOne(m, cap))
  {
    var out := ReplayOne(m, cap);
    if m.role == Assistant && m.calls != [] {
      AnsweredInOrder(m, cap);
    } else if out != [] {
      assert out[1..] == [];
    }
  }

  /** A call id names its message and its place there. */
  lemma CallIdIsInjective(a: string, i: nat, b: string, j: nat)
    requires CallId(a, i) == CallId(b, j)
    ensures a == b && i == j
  {
    LastSeparatorSplits("call_" + a, Decimal(i), "call_" + b, Decimal(j), '_');
    DecimalIsInjective(i, j);
    assert a == ("call_" + a)[5..] && b == ("call_" + b)[5..];
  }

  /** The request holds call i of stored message m, under its id and name. */
  predicate Issued(history: seq<StoredMessage>, id: string, k: nat, i: nat) {
    k < |history| && history[k].role == Assistant && i < |history[k].calls| && id == CallId(history[k].id, i)
  }

  predicate DistinctIds(history: seq<StoredMessage>) {
    forall k, l | 0 <= k < l < |history| :: history[k].id != history[l].id
  }

  function ReplayParts(history: seq<StoredMessage>, cap: nat): (parts: seq<seq<Message>>)
    ensures |parts| == |history| && forall i | 0 <= i < |parts| :: parts[i] == ReplayOne(history[i], cap)
  {
    seq(|history|, i requires 0 <= i < |history| => ReplayOne(history[i], cap))
  }

  lemma {:induction false} ReplayIsFlat(history: seq<StoredMessage>, cap: nat)
    ensures ReplayAll(history, cap) == Flat(ReplayParts(history, cap))
  {
    if history != [] {
      var n := |history| - 1;
      ReplayIsFlat(history[..n], cap);
      PartsPrefix(history, cap, n);
    }
  }

  lemma PartsPrefix(history: seq<StoredMessage>, cap: nat, k: nat)
    requires k <= |history|
    ensures ReplayParts(history[..k], cap) == ReplayParts(history, cap)[..k]
  {
  }

  /** Every message of the replay comes from one stored message. */
  lemma ReplayAt(history: seq<StoredMessage>, cap: nat, p: nat) returns (k: nat, offset: nat)
    requires p < |ReplayAll(history, cap)|
    ensures k < |history| && p == |ReplayAll(history[..k], cap)| + offset
    ensures offset < |ReplayOne(history[k], cap)| && ReplayAll(history, cap)[p] == ReplayOne(history[k], cap)[offset]
  {
    ReplayIsFlat(history, cap);
    k, offset := FlatAt(ReplayParts(history, cap), p);
    ReplayIsFlat(history[..k], cap);
    PartsPrefix(history, cap, k);
  }

  /** Of one stored message only the first replayed one carries calls, and they are its own. */
  lemma CallsComeFirst(m: StoredMessage, cap: nat, offset: nat)
    requires offset < |ReplayOne(m, cap)| && ReplayOne(m, cap)[offset].AI? && ReplayOne(m, cap)[offset].calls != []
    ensures offset == 0 && m.role == Assistant && ReplayOne(m, cap)[offset].calls == CallsOf(m)
  {
  }

  /** Every call of the replay stands for one stored call. */
  lemma CallsComeFromTheHistory(history: seq<StoredMessage>, cap: nat, p: nat, i: nat) returns (k: nat)
    requires p < |ReplayAll(history, cap)| && ReplayAll(history, cap)[p].AI? && i < |ReplayAll(history, cap)[p].calls|
    ensures Issued(history, ReplayAll(history, cap)[p].calls[i].id, k, i)
    ensures p == |ReplayAll(history[..k], cap)|
  {
    var offset;
    k, offset := ReplayAt(history, cap, p);
    CallsComeFirst(history[k], cap, offset);
  }

  /** No two calls of the replay share an id when no two stored messages do, so the result
      that answers a call is determined by its id alone. */
  lemma CallIdsAreUnique(history: seq<StoredMessage>, cap: nat, p: nat, i: nat, q: nat, j: nat)
    requires DistinctIds(history)
    requires p < |ReplayAll(history, cap)| && ReplayAll(history, cap)[p].AI? && i < |ReplayAll(history, cap)[p].calls|
    requires q < |ReplayAll(history, cap)| && ReplayAll(history, cap)[q].AI? && j < |ReplayAll(history, cap)[q].calls|
    requires ReplayAll(history, cap)[p].calls[i].id == ReplayAll(history, cap)[q].calls[j].id
    ensures p == q && i == j
  {
    var k := CallsComeFromTheHistory(history, cap, p, i);
    var l := CallsComeFromTheHistory(history, cap, q, j);
    CallIdIsInjective(history[k].id, i, history[l].id, j);
  }

  /** What a reader of one replayed assistant turn learns of its calls; the results start at 1. */
  function Recalled(calls: seq<Call>, ms: seq<Message>): (r: seq<StoredCall>)
    requires |calls| < |ms|
    ensures |r| == |calls| && forall i | 0 <= i < |r| :: r[i] == Remembered(calls[i], ms[1 + i])
  {
    seq(|calls|, i requires 0 <= i < |calls| => Remembered(calls[i], ms[1 + i]))
  }

  function Remembered(c: Call, result: Message): StoredCall {
    StoredCall(c.name, Some(c.args),
               if result.ToolResult? && result.content.Plain? then Some(result.content.text) else None)
  }

  predicate Complete(c: StoredCall, cap: nat) {
    c.name != "" && c.input.Some? && c.output.Some? && |c.output.value| <= cap
  }

  function Words(m: Message): string {
    if m.AI? && m.content.Plain? then m.content.text else ""
  }

  lemma CompleteIsRemembered(m: StoredMessage, cap: nat, i: nat)
    requires i < |m.calls| && Complete(m.calls[i], cap)
    ensures Remembered(Replayed(m, i), ResultOf(m, i, cap)) == m.calls[i]
  {
  }

  lemma WordsAreLast(m: StoredMessage, cap: nat)
    requires m.role == Assistant && (Trim(m.content) != "" || (m.content == "" && m.calls != []))
    ensures ReplayOne(m, cap) != [] && Words(ReplayOne(m, cap)[|ReplayOne(m, cap)| - 1]) == m.content
  {
    if m.calls != [] && m.content == "" {
      var rs := Results(m, |m.calls|, cap);
      assert rs[|rs| - 1] == ResultOf(m, |m.calls| - 1, cap);
    }
  }

  /** A turn whose calls have names, object inputs and outputs within the cap, and whose closing
      words are not blank, is replayed whole: the model is told exactly what was stored. */
  lemma ReplayTellsTheTurn(m: StoredMessage, cap: nat)
    requires m.role == Assistant && (forall i | 0 <= i < |m.calls| :: Complete(m.calls[i], cap))
    requires Trim(m.content) != "" || (m.content == "" && m.calls != [])
    ensures var out := ReplayOne(m, cap);
            && |m.calls| < |out| && out[0].AI? && out[0].calls == CallsOf(m)
            && Recalled(CallsOf(m), out) == m.calls && Words(out[|out| - 1]) == m.content
  {
    WordsAreLast(m, cap);
    if m.calls == [] {
      assert CallsOf(m) == [];
    } else {
      AnsweredInOrder(m, cap);
      CallsAreRemembered(m, cap, ReplayOne(m, cap));
    }
  }

  lemma CallsAreRemembered(m: StoredMessage, cap: nat, out: seq<Message>)
    requires |out| > |m.calls| && forall i | 0 <= i < |m.calls| :: Complete(m.calls[i], cap)
    requires forall i | 0 <= i < |m.calls| :: out[1 + i] == Results(m, |m.calls|, cap)[i]
    ensures Recalled(CallsOf(m), out) == m.calls
  {
    forall i | 0 <= i < |m.calls|
      ensures Remembered(CallsOf(m)[i], out[1 + i]) == m.calls[i]
    {
      assert Complete(m.calls[i], cap) && out[1 + i] == Results(m, |m.calls|, cap)[i];
      CompleteIsRemembered(m, cap, i);
    }
  }

  /** The middle part of a list, read by place. */
  lemma MiddlePart(head: Message, rs: seq<Message>, tail: seq<Message>)
    ensures |[head] + rs + tail| > |rs| && ([head] + rs + tail)[0] == head
    ensures forall i | 0 <= i < |rs| :: ([head] + rs + tail)[1 + i] == rs[i]
    ensures ([head] + rs + tail)[1 + |rs|..] == tail
  {
  }

  lemma ResultsAnswer(m: StoredMessage, out: seq<Message>, cap: nat)
    requires |out| > |m.calls| && forall i | 0 <= i < |m.calls| :: out[1 + i] == Results(m, |m.calls|, cap)[i]
    ensures Answered(out, CallsOf(m))
  {
    forall i | 0 <= i < |m.calls|
      ensures Answers(out[1 + i], CallsOf(m)[i])
    {
      assert out[1 + i] == Results(m, |m.calls|, cap)[i];
    }
  }

  lemma AnsweredInOrder(m: StoredMessage, cap: nat)
    requires m.role == Assistant && m.calls != []
    ensures var out := ReplayOne(m, cap); out != [] && out[0] == AI(Plain(""), CallsOf(m)) && Answered(out, CallsOf(m))
    ensures forall i | 0 <= i < |m.calls| :: ReplayOne(m, cap)[1 + i] == Results(m, |m.calls|, cap)[i]
    ensures ReplayOne(m, cap)[1 + |m.calls|..] == Closing(m)
  {
    MiddlePart(AI(Plain(""), CallsOf(m)), Results(m, |m.calls|, cap), Closing(m));
    ResultsAnswer(m, ReplayOne(m, cap), cap);
  }
}
