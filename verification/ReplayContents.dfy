/** What the replay of a stored history holds, message by message: the user's words, the calls
    with what they returned, the closing words, each in its place, and nothing else. */
module ReplayContents {
  import opened Collections
  import opened JsText
  import opened Options
  import opened Replay
  import opened Transcript

  // ── The user's words ──────────────────────────────────────────────────────────

  function Humans(ms: seq<Message>): seq<Message> {
    if ms == [] then [] else (if ms[0].Human? then [ms[0]] else []) + Humans(ms[1..])
  }

  /** The contents of the stored user messages, each as a human message. */
  function UserWords(history: seq<StoredMessage>): seq<Message> {
    if history == [] then []
    else UserWords(history[..|history| - 1])
         + if history[|history| - 1].role == User then [Human(Plain(history[|history| - 1].content), "")] else []
  }

  lemma HumansOfHead(m: Message, ms: seq<Message>)
    ensures Humans([m] + ms) == (if m.Human? then [m] else []) + Humans(ms)
  {
    assert ([m] + ms)[1..] == ms;
  }

  lemma {:induction false} HumansConcat(a: seq<Message>, b: seq<Message>)
    ensures Humans(a + b) == Humans(a) + Humans(b)
  {
    if a == [] {
      assert a + b == b;
    } else {
      HumansConcat(a[1..], b);
      assert a + b == [a[0]] + (a[1..] + b);
      HumansOfHead(a[0], a[1..] + b);
      Assoc(if a[0].Human? then [a[0]] else [], Humans(a[1..]), Humans(b));
    }
  }

  lemma {:induction false} NoHumans(ms: seq<Message>)
    requires forall i | 0 <= i < |ms| :: !ms[i].Human?
    ensures Humans(ms) == []
  {
    if ms != [] {
      NoHumans(ms[1..]);
    }
  }

  lemma HumansOfOne(m: StoredMessage, cap: nat)
    ensures Humans(ReplayOne(m, cap)) == if m.role == User then [Human(Plain(m.content), "")] else []
  {
    var one := ReplayOne(m, cap);
    if m.role == User {
      assert one[1..] == [] && Humans([]) == [];
    } else {
      NoHumans(one);
    }
  }

  /** The human messages of the replay are the stored user messages' contents, in order, each
      once; no other message becomes one. */
  lemma {:induction false} UsersAreReplayed(history: seq<StoredMessage>, cap: nat)
    ensures Humans(ReplayAll(history, cap)) == UserWords(history)
  {
    if history != [] {
      var n := |history| - 1;
      UsersAreReplayed(history[..n], cap);
      HumansConcat(ReplayAll(history[..n], cap), ReplayOne(history[n], cap));
      HumansOfOne(history[n], cap);
    }
  }

  // ── One stored message's place and contents ───────────────────────────────────

  /** What the replay holds for the stored message at k. */
  function PartAt(history: seq<StoredMessage>, cap: nat, k: nat): seq<Message>
    requires k < |history|
  {
    ReplayBounds(history, cap, k);
    ReplayAll(history, cap)[|ReplayAll(history[..k], cap)|..|ReplayAll(history[..k + 1], cap)|]
  }

  /** The replay of a history starts with the replay of each earlier part of it. */
  lemma {:induction false} ReplayIsPrefix(history: seq<StoredMessage>, cap: nat, k: nat)
    requires k <= |history|
    ensures ReplayAll(history[..k], cap) <= ReplayAll(history, cap)
  {
    if k == |history| {
      assert history[..k] == history;
    } else {
      var n := |history| - 1;
      ReplayIsPrefix(history[..n], cap, k);
      assert history[..n][..k] == history[..k];
    }
  }

  lemma ReplayBounds(history: seq<StoredMessage>, cap: nat, k: nat)
    requires k < |history|
    ensures ReplayAll(history[..k], cap) <= ReplayAll(history[..k + 1], cap) <= ReplayAll(history, cap)
    ensures ReplayAll(history[..k + 1], cap) == ReplayAll(history[..k], cap) + ReplayOne(history[k], cap)
  {
    assert history[..k + 1][..k] == history[..k];
    ReplayIsPrefix(history, cap, k);
    ReplayIsPrefix(history, cap, k + 1);
  }

  lemma PartIsReplayOne(history: seq<StoredMessage>, cap: nat, k: nat)
    requires k < |history|
    ensures PartAt(history, cap, k) == ReplayOne(history[k], cap)
  {
    ReplayBounds(history, cap, k);
    SliceOfPrefix(ReplayAll(history, cap), ReplayAll(history[..k], cap), ReplayOne(history[k], cap));
  }

  lemma SliceOfPrefix<T>(whole: seq<T>, a: seq<T>, b: seq<T>)
    requires a + b <= whole
    ensures whole[|a|..|a + b|] == b
  {
    assert whole[..|a + b|] == a + b;
  }

  /** What a call returned, as the model is told: its output, or that there is none, or the first
      `cap` characters of it and how many there were. */
  ghost predicate TellsOutput(text: string, output: Option<string>, cap: nat) {
    var full := if output.Some? then output.value else "(no result)";
    if |full| <= cap then text == full
    else text == full[..cap] + ("\n…[output truncated in replay: " + Decimal(|full|) + " total characters]")
  }

  ghost predicate TellsCall(c: Call, m: StoredMessage, i: nat)
    requires i < |m.calls|
  {
    && c.id == "call_" + m.id + "_" + Decimal(i)
    && c.name == (if m.calls[i].name != "" then m.calls[i].name else "tool")
    && c.args == (if m.calls[i].input.Some? then m.calls[i].input.value else "{}")
  }

  ghost predicate TellsResult(r: Message, c: Call, output: Option<string>, cap: nat) {
    && r.ToolResult? && r.callId == c.id && r.name == c.name && r.files == []
    && r.content.Plain? && TellsOutput(r.content.text, output, cap)
  }

  /** A user message is one human message of its words; an assistant message without calls is
      its words; one with calls is the calls, the results in order, and the closing words if
      they are not blank; any other message is nothing. */
  ghost predicate Tells(part: seq<Message>, m: StoredMessage, cap: nat) {
    match m.role
    case User => part == [Human(Plain(m.content), "")]
    case OtherRole => part == []
    case Assistant =>
      if m.calls == [] then part == [AI(Plain(m.content), [])]
      else
        var n := |m.calls|;
        && |part| == 1 + n + (if Blank(m.content) then 0 else 1)
        && part[0].AI? && part[0].content == Plain("") && |part[0].calls| == n
        && (forall i | 0 <= i < n :: TellsCall(part[0].calls[i], m, i))
        && (forall i | 0 <= i < n :: TellsResult(part[1 + i], part[0].calls[i], m.calls[i].output, cap))
        && (!Blank(m.content) ==> part[1 + n] == AI(Plain(m.content), []))
  }

  lemma ResultTells(m: StoredMessage, i: nat, cap: nat)
    requires i < |m.calls|
    ensures TellsCall(CallsOf(m)[i], m, i) && TellsResult(ResultOf(m, i, cap), CallsOf(m)[i], m.calls[i].output, cap)
  {
    var full := m.calls[i].output.GetOr("(no result)");
    if |full| > cap {
      MarkerJoins(full[..cap], Decimal(|full|));
    }
    assert "call_" + m.id + "_" + Decimal(i) == CallId(m.id, i);
  }

  lemma MarkerJoins(kept: string, count: string)
    ensures kept + "\n…[output truncated in replay: " + count + " total characters]"
         == kept + ("\n…[output truncated in replay: " + count + " total characters]")
  {
  }

  lemma CallsTell(m: StoredMessage, cap: nat)
    requires m.role == Assistant && m.calls != []
    ensures Tells(ReplayOne(m, cap), m, cap)
  {
    var part, n := ReplayOne(m, cap), |m.calls|;
    AnsweredInOrder(m, cap);
    TrimIsEmptyIffBlank(m.content);
    assert |part| == 1 + n + |Closing(m)|;
    forall i | 0 <= i < n
      ensures TellsCall(part[0].calls[i], m, i) && TellsResult(part[1 + i], part[0].calls[i], m.calls[i].output, cap)
    {
      ResultTells(m, i, cap);
      assert part[1 + i] == Results(m, n, cap)[i];
    }
    if !Blank(m.content) {
      assert part[1 + n..][0] == part[1 + n];
    }
  }

  /** Each stored message is told, whole and in its place, after all that was stored before it. */
  lemma EveryMessageIsTold(history: seq<StoredMessage>, cap: nat, k: nat)
    requires k < |history|
    ensures ReplayAll(history[..k], cap) + PartAt(history, cap, k) <= ReplayAll(history, cap)
    ensures Tells(PartAt(history, cap, k), history[k], cap)
  {
    PartIsReplayOne(history, cap, k);
    ReplayBounds(history, cap, k);
    if history[k].role == Assistant && history[k].calls != [] {
      CallsTell(history[k], cap);
    }
  }

  /** And nothing else: the parts, one after the other, are the replay. */
  lemma {:induction false} NothingElseIsTold(history: seq<StoredMessage>, cap: nat)
    ensures ReplayAll(history, cap) == Flat(seq(|history|, k requires 0 <= k < |history| => PartAt(history, cap, k)))
  {
    var parts := seq(|history|, k requires 0 <= k < |history| => PartAt(history, cap, k));
    forall k | 0 <= k < |history|
      ensures parts[k] == ReplayParts(history, cap)[k]
    {
      PartIsReplayOne(history, cap, k);
    }
    assert parts == ReplayParts(history, cap);
    ReplayIsFlat(history, cap);
  }
}
