/** The per-request context carried by the turn's user message (backend/src/agent/turn-context.ts). */
module TurnContext {
  import opened JsText
  import opened Transcript

  const TURN_MESSAGE_HEADING := "## The user's message"

  /** Position of the last human message, or |ms| when there is none. */
  function LastHuman(ms: seq<Message>): (at: nat)
    ensures at <= |ms|
    ensures at < |ms| ==> ms[at].Human? && forall i | at < i < |ms| :: !ms[i].Human?
    ensures at == |ms| ==> forall i | 0 <= i < |ms| :: !ms[i].Human?
  {
    if ms == [] then 0
    else
      var n := |ms| - 1;
      if ms[n].Human? then n
      else
        var at := LastHuman(ms[..n]);
        if at < n then at else |ms|
  }

  function Contextual(c: Content, context: string): Content
  {
    match c
    case Plain(text) => Plain(context + "\n\n" + TURN_MESSAGE_HEADING + "\n" + text)
    case Parts(parts) => Parts([TextPart(context + "\n\n" + TURN_MESSAGE_HEADING)] + parts)
  }

  function WithTurnContext(ms: seq<Message>, context: string): seq<Message>
  {
    if Trim(context) == "" then ms
    else
      var at := LastHuman(ms);
      if at == |ms| then ms + [Human(Plain(context), "")]
      else ms[at := Human(Contextual(ms[at].content, context), ms[at].id)]
  }

  /** A text that starts with the context, then says that the user's message follows. */
  ghost predicate Heads(text: string, context: string) {
    context <= text && text[|context|..] == "\n\n## The user's message"
  }

  /** The context comes first, then the heading, then the user's own words or parts, whole. */
  ghost predicate CarriesBoth(c: Content, original: Content, context: string)
  {
    match (c, original)
    case (Plain(a), Plain(b)) => exists head: string :: Heads(head, context) && a == head + "\n" + b
    case (Parts(a), Parts(b)) => |a| == |b| + 1 && a[0].TextPart? && Heads(a[0].text, context) && a[1..] == b
    case _ => false
  }

  lemma ContextualCarriesBoth(c: Content, context: string)
    ensures CarriesBoth(Contextual(c, context), c, context)
  {
    var head := context + "\n\n" + TURN_MESSAGE_HEADING;
    HeadingFollows(context);
    if c.Plain? {
      assert Contextual(c, context).text == head + "\n" + c.text;
    } else {
      var added := [TextPart(head)];
      assert Contextual(c, context).parts[0] == added[0] && (added + c.parts)[1..] == c.parts;
    }
  }

  lemma HeadingFollows(context: string)
    ensures Heads(context + "\n\n" + TURN_MESSAGE_HEADING, context)
  {
    var rest := "\n\n" + TURN_MESSAGE_HEADING;
    assert context + "\n\n" + TURN_MESSAGE_HEADING == context + rest;
    assert (context + rest)[|context|..] == rest;
  }

  /** Every message but the turn's is the one it was, so the conversation before it stays a
      stable prefix; the turn's keeps its place, its id and its content, after the context; where
      there is no turn one message is added, of exactly the context; the protocol is kept. */
  lemma OnlyTheTurnChanges(ms: seq<Message>, context: string)
    ensures var out, at := WithTurnContext(ms, context), LastHuman(ms);
            && (Trim(context) == "" ==> out == ms)
            && (Trim(context) != "" && at == |ms| ==> out == ms + [Human(Plain(context), "")])
            && (Trim(context) != "" && at < |ms| ==>
                  && |out| == |ms| && out[..at] == ms[..at] && out[at + 1..] == ms[at + 1..]
                  && out[at].Human? && out[at].id == ms[at].id
                  && CarriesBoth(out[at].content, ms[at].content, context))
    ensures Paired(ms) ==> Paired(WithTurnContext(ms, context))
  {
    var at := LastHuman(ms);
    if Trim(context) != "" && Paired(ms) {
      if at < |ms| {
        HumanForHuman(ms, at, Human(Contextual(ms[at].content, context), ms[at].id));
      } else {
        var h := [Human(Plain(context), "")];
        assert h[1..] == [] && Paired(h);
        PairedConcat(ms, h);
      }
    }
    if at < |ms| {
      ContextualCarriesBoth(ms[at].content, context);
    }
  }

  lemma {:induction false} HumanForHuman(ms: seq<Message>, at: nat, h: Message)
    requires Paired(ms) && at < |ms| && ms[at].Human? && h.Human?
    ensures Paired(ms[at := h])
    decreases |ms|
  {
    var out := ms[at := h];
    if at == 0 {
      assert out[1..] == ms[1..];
    } else {
      var n := if ms[0].AI? then 1 + |ms[0].calls| else 1;
      assert at >= n by {
        assert ms[0].AI? && at < n ==> Answers(ms[1 + (at - 1)], ms[0].calls[at - 1]);
      }
      HumanForHuman(ms[n..], at - n, h);
      assert out[n..] == ms[n..][at - n := h];
    }
  }
}
