/** One model call of a turn, from the stored history to the messages sent: replay, trim, the
    turn and what its tools have answered so far, the turn's context, the files' content. */
module Request {
  import opened JsText
  import MediaPlacement
  import MediaReference
  import opened Replay
  import opened ToolMedia
  import opened Transcript
  import opened TurnContext

  /** What the trim may keep of the replayed history: everything when there is no token limit,
      else a suffix that is empty or starts on a human message. */
  predicate Kept(history: seq<StoredMessage>, cap: nat, limited: bool, kept: seq<Message>) {
    var all := ReplayAll(history, cap);
    if limited then IsTrimmed(all, kept) else kept == all
  }

  /** The messages of one model call after the system message; `steps` is what the turn's own
      earlier model calls asked for, with the answers. */
  function Sent(kept: seq<Message>, turn: Message, steps: seq<Message>, context: string,
                sees: bool, maxImages: int, partsFor: ToolFile -> seq<Part>): seq<Message>
  {
    var ms := WithTurnContext(kept + [turn] + steps, context);
    Weave(ms, InsertionsOf(ms, sees, maxImages, partsFor), 0)
  }

  /** End to end, every tool call sent is followed at once by its own results: for any history,
      any trim within its contract, any context and any files. */
  lemma EveryRequestObeysTheProtocol(history: seq<StoredMessage>, cap: nat, limited: bool, kept: seq<Message>,
                                     turn: Message, steps: seq<Message>, context: string,
                                     sees: bool, maxImages: int, partsFor: ToolFile -> seq<Part>)
    requires Kept(history, cap, limited, kept) && turn.Human? && Paired(steps)
    ensures Paired(Sent(kept, turn, steps, context, sees, maxImages, partsFor))
  {
    ReplayIsPaired(history, cap);
    if limited {
      TrimmedStaysPaired(ReplayAll(history, cap), kept);
    }
    assert [turn][1..] == [] && Paired([turn]);
    PairedConcat(kept, [turn]);
    PairedConcat(kept + [turn], steps);
    OnlyTheTurnChanges(kept + [turn] + steps, context);
    MediaPlacement.MediaKeepsTheProtocol(WithTurnContext(kept + [turn] + steps, context), sees, maxImages, partsFor);
  }

  lemma LastHumanIs(ms: seq<Message>, at: nat)
    requires at < |ms| && ms[at].Human? && forall i | at < i < |ms| :: !ms[i].Human?
    ensures LastHuman(ms) == at
  {
  }

  lemma TurnIsLast(kept: seq<Message>, turn: Message, steps: seq<Message>)
    requires turn.Human? && forall m <- steps :: !m.Human?
    ensures LastHuman(kept + [turn] + steps) == |kept|
  {
    var ms := kept + [turn] + steps;
    forall i | |kept| < i < |ms|
      ensures !ms[i].Human?
    {
      assert ms[i] == steps[i - |kept| - 1];
    }
    assert ms[|kept|] == turn;
    LastHumanIs(ms, |kept|);
  }

  lemma OneReplaced(kept: seq<Message>, turn: Message, steps: seq<Message>, out: seq<Message>)
    requires var ms := kept + [turn] + steps; |out| == |ms| && out[..|kept|] == ms[..|kept|] && out[|kept| + 1..] == ms[|kept| + 1..]
    ensures out == kept + [out[|kept|]] + steps
  {
    var ms := kept + [turn] + steps;
    assert ms[..|kept|] == kept && ms[|kept| + 1..] == steps;
    assert out == out[..|kept|] + [out[|kept|]] + out[|kept| + 1..];
  }

  /** The context lands on the turn's own message, before the user's words, however far its tool
      loop has got, and the history before it is sent as it was: the prefix a provider's cache
      reuses. */
  lemma ContextLandsOnTheTurn(kept: seq<Message>, turn: Message, steps: seq<Message>, context: string)
      returns (told: Message)
    requires turn.Human? && Trim(context) != "" && forall m <- steps :: !m.Human?
    ensures WithTurnContext(kept + [turn] + steps, context) == kept + [told] + steps
    ensures told.Human? && told.id == turn.id && CarriesBoth(told.content, turn.content, context)
  {
    var ms := kept + [turn] + steps;
    var out := WithTurnContext(ms, context);
    TurnIsLast(kept, turn, steps);
    OnlyTheTurnChanges(ms, context);
    assert ms[|kept|] == turn;
    OneReplaced(kept, turn, steps, out);
    told := out[|kept|];
  }

  /** One request, laid out: the kept history, the turn with its context, the turn's steps, and
      after each row of results that returned files one message of what they show. */
  lemma RequestIsLaidOut(kept: seq<Message>, turn: Message, steps: seq<Message>, context: string,
                         sees: bool, maxImages: int, partsFor: ToolFile -> seq<Part>)
      returns (told: Message)
    requires turn.Human? && forall m <- steps :: !m.Human?
    ensures Sent(kept, turn, steps, context, sees, maxImages, partsFor)
         == MediaReference.WithMedia(kept + [told] + steps, 0, sees, maxImages, partsFor)
    ensures if Blank(context) then told == turn
            else told.Human? && told.id == turn.id && CarriesBoth(told.content, turn.content, context)
  {
    TrimIsEmptyIffBlank(context);
    told := turn;
    if Trim(context) != "" {
      told := ContextLandsOnTheTurn(kept, turn, steps, context);
    }
    MediaReference.WovenIsTheReference(WithTurnContext(kept + [turn] + steps, context), 0, sees, maxImages, partsFor);
  }
}
