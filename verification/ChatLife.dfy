/** What holds over a whole chat's life of turns, compactions and rewinds. */
module ChatLife {
  import opened Compaction
  import opened Options
  import opened Replay

  datatype State = State(chat: Chat, history: seq<StoredMessage>)

  /** A message is saved; a turn compacts the history it loaded; a person rewinds the chat to
      just before position k. Each is one atomic step. */
  datatype Event =
    | Append(message: StoredMessage)
    | Compact(maxTokens: nat, threshold: int, reply: Option<string>)
    | Rewind(k: nat)

  function Ids(ms: seq<StoredMessage>): (ids: seq<string>)
    ensures |ids| == |ms| && forall i | 0 <= i < |ids| :: ids[i] == ms[i].id
  {
    seq(|ms|, i requires 0 <= i < |ms| => ms[i].id)
  }

  function Step(s: State, e: Event, json: seq<StoredCall> -> string): State {
    match e
    case Append(m) => s.(history := s.history + [m])
    case Compact(maxTokens, threshold, reply) =>
      s.(chat := Compacted(s.chat, s.history, maxTokens, threshold, reply, json).chat)
    case Rewind(k) =>
      if k >= |s.history| then s
      else State(Cleared(s.chat, Ids(s.history[k..])), s.history[..k])
  }

  /** A new message's id is not empty and not one the chat holds. */
  predicate Enabled(s: State, e: Event) {
    e.Append? ==> e.message.id != "" && e.message.id !in Ids(s.history)
  }

  /** The summary stands for exactly the first n messages, and the marker is the n-th one's id. */
  predicate CoversPrefix(s: State, n: nat) {
    && n <= |s.history|
    && Covered(s.chat.summary) == s.history[..n]
    && s.chat.summaryUpTo == (if n == 0 then None else Some(s.history[n - 1].id))
  }

  predicate ValidIds(history: seq<StoredMessage>) {
    DistinctIds(history) && forall i | 0 <= i < |history| :: history[i].id != ""
  }

  ghost predicate Sound(s: State) {
    ValidIds(s.history) && exists n: nat :: CoversPrefix(s, n)
  }

  lemma RecentOfCovered(s: State, n: nat)
    requires ValidIds(s.history) && CoversPrefix(s, n)
    ensures Recent(s.chat, s.history) == s.history[n..]
  {
    if n > 0 {
      IndexOfIts(s.history, n - 1);
    }
  }

  /** Summary and recent messages are the whole history, once each, in order. */
  lemma SoundMeansNothingLost(s: State)
    requires Sound(s)
    ensures Covered(s.chat.summary) + Recent(s.chat, s.history) == s.history
    ensures s.chat.summaryUpTo == (if Covered(s.chat.summary) == [] then None
                                   else Some(Covered(s.chat.summary)[|Covered(s.chat.summary)| - 1].id))
  {
    var n: nat :| CoversPrefix(s, n);
    RecentOfCovered(s, n);
  }

  lemma AppendKeepsSound(s: State, m: StoredMessage)
    requires Sound(s) && m.id != "" && m.id !in Ids(s.history)
    ensures Sound(s.(history := s.history + [m]))
  {
    var n: nat :| CoversPrefix(s, n);
    assert forall i | 0 <= i < |s.history| :: Ids(s.history)[i] == s.history[i].id;
    var t := s.(history := s.history + [m]);
    assert t.history[..n] == s.history[..n];
    assert CoversPrefix(t, n);
  }

  lemma CompactKeepsSound(s: State, maxTokens: nat, threshold: int, reply: Option<string>,
                          json: seq<StoredCall> -> string)
    requires Sound(s)
    ensures Sound(s.(chat := Compacted(s.chat, s.history, maxTokens, threshold, reply, json).chat))
  {
    var n: nat :| CoversPrefix(s, n);
    RecentOfCovered(s, n);
    var recent, trigger := s.history[n..], Trigger(maxTokens, threshold);
    var t := s.(chat := Compacted(s.chat, s.history, maxTokens, threshold, reply, json).chat);
    if t.chat == s.chat {
      assert CoversPrefix(t, n);
    } else {
      FoldCoversMore(s, n, KeepFrom(recent, trigger / 2, json, |recent|), reply.value);
    }
  }

  lemma FoldCoversMore(s: State, n: nat, from: nat, text: string)
    requires CoversPrefix(s, n) && 0 < from <= |s.history| - n
    ensures CoversPrefix(s.(chat := Folded(s.chat, s.history[n..][..from], text)), n + from)
  {
    var turns := s.history[n..][..from];
    assert s.history[..n] + turns == s.history[..n + from];
    assert turns[from - 1] == s.history[n + from - 1];
  }

  lemma RewindKeepsSound(s: State, k: nat)
    requires Sound(s) && k < |s.history|
    ensures Sound(State(Cleared(s.chat, Ids(s.history[k..])), s.history[..k]))
  {
    var n: nat :| CoversPrefix(s, n);
    var deleted := Ids(s.history[k..]);
    var t := State(Cleared(s.chat, deleted), s.history[..k]);
    assert ValidIds(t.history);
    if n > k {
      assert deleted[n - 1 - k] == s.history[n - 1].id;
      assert CoversPrefix(t, 0);
    } else {
      assert n > 0 ==> s.history[n - 1].id !in deleted by {
        assert forall i | 0 <= i < |deleted| :: deleted[i] == s.history[k + i].id;
      }
      assert t.history[..n] == s.history[..n];
      assert CoversPrefix(t, n);
    }
  }

  lemma StepKeepsSound(s: State, e: Event, json: seq<StoredCall> -> string)
    requires Sound(s) && Enabled(s, e)
    ensures Sound(Step(s, e, json))
  {
    match e
    case Append(m) => AppendKeepsSound(s, m);
    case Compact(maxTokens, threshold, reply) => CompactKeepsSound(s, maxTokens, threshold, reply, json);
    case Rewind(k) => if k < |s.history| { RewindKeepsSound(s, k); }
  }

  predicate Run(s: State, es: seq<Event>, json: seq<StoredCall> -> string)
    decreases |es|
  {
    es == [] || (Enabled(s, es[0]) && Run(Step(s, es[0], json), es[1..], json))
  }

  function After(s: State, es: seq<Event>, json: seq<StoredCall> -> string): State
    decreases |es|
  {
    if es == [] then s else After(Step(s, es[0], json), es[1..], json)
  }

  const NEW_CHAT := State(Chat(None, None, None, None), [])

  /** In every chat's life — any turns, compactions, failed summaries and rewinds, in any
      order — the summary and the recent messages hold every message exactly once. */
  lemma {:induction false} NoMessageIsEverLostOrRepeated(s: State, es: seq<Event>, json: seq<StoredCall> -> string)
    requires Sound(s) && Run(s, es, json)
    ensures var t := After(s, es, json);
            && Sound(t)
            && Covered(t.chat.summary) + Recent(t.chat, t.history) == t.history
    decreases |es|
  {
    if es == [] {
      SoundMeansNothingLost(s);
    } else {
      StepKeepsSound(s, es[0], json);
      NoMessageIsEverLostOrRepeated(Step(s, es[0], json), es[1..], json);
    }
  }

  lemma NewChatIsSound()
    ensures Sound(NEW_CHAT)
  {
    assert CoversPrefix(NEW_CHAT, 0);
  }

  /** What the model is given after a compaction: the summary and the effective messages are
      the whole history it was called with. */
  lemma NothingIsHiddenFromTheModel(s: State, maxTokens: nat, threshold: int, reply: Option<string>,
                                    json: seq<StoredCall> -> string)
    requires Sound(s)
    ensures var out := Compacted(s.chat, s.history, maxTokens, threshold, reply, json);
            Covered(out.chat.summary) + out.effective == s.history
  {
    SoundMeansNothingLost(s);
    var recent := Recent(s.chat, s.history);
    SplitAnywhere(Covered(s.chat.summary), recent, KeepFrom(recent, Trigger(maxTokens, threshold) / 2, json, |recent|));
  }

  lemma SplitAnywhere(covered: seq<StoredMessage>, recent: seq<StoredMessage>, from: nat)
    requires from <= |recent|
    ensures (covered + recent[..from]) + recent[from..] == covered + recent
  {
    assert recent[..from] + recent[from..] == recent;
  }

  /** The summarizer is awaited: a rewind can come between a compaction's reading of the chat
      and its saving. The late save leaves a sound chat exactly when the rewind spared the
      last message it folded. */
  lemma LateSaveIsSoundIff(s: State, n: nat, turns: seq<StoredMessage>, text: string, k: nat)
    requires ValidIds(s.history) && CoversPrefix(s, n) && k <= |s.history|
    requires turns != [] && n + |turns| <= |s.history| && turns == s.history[n..n + |turns|]
    ensures Sound(State(Folded(s.chat, turns, text), s.history[..k])) <==> n + |turns| <= k
  {
    var t := State(Folded(s.chat, turns, text), s.history[..k]);
    var m := n + |turns|;
    assert s.history[..n] + turns == s.history[..m];
    assert Covered(t.chat.summary) == s.history[..m];
    if m <= k {
      assert t.history[..m] == s.history[..m];
      assert CoversPrefix(t, m);
      assert ValidIds(t.history);
    } else {
      forall c: nat
        ensures !CoversPrefix(t, c)
      {
        if c <= k {
          assert |t.history[..c]| == c;
        }
      }
    }
  }

  lemma WordsWeigh(a: StoredMessage, b: StoredMessage, c: StoredMessage, json: seq<StoredCall> -> string)
    requires Weight(a, json) == Weight(b, json) == Weight(c, json) == 1
    ensures Total([a, b, c], json) == 3 && KeepFrom([a, b, c], 0, json, 3) == 2
  {
    var recent := [a, b, c];
    assert recent[1..] == [b, c] && recent[2..] == [c] && [b, c][1..] == [c] && [c][1..] == [];
    assert Total([], json) == 0 && Total([c], json) == 1 && Total([b, c], json) == 2;
    assert KeepFrom(recent, 0, json, 2) == 2;
  }

  lemma TwoOfThreeAreFolded(a: StoredMessage, b: StoredMessage, c: StoredMessage, text: string,
                            json: seq<StoredCall> -> string)
    requires Weight(a, json) == Weight(b, json) == Weight(c, json) == 1
    ensures Compacted(NEW_CHAT.chat, [a, b, c], 2, 50, Some(text), json).chat == Folded(NEW_CHAT.chat, [a, b], text)
  {
    WordsWeigh(a, b, c, json);
    assert [a, b, c][..2] == [a, b];
  }

  lemma TooMuchIsCovered(s: State)
    requires |Covered(s.chat.summary)| > |s.history|
    ensures !Sound(s)
  {
    assert forall n: nat | n <= |s.history| :: |s.history[..n]| == n;
  }

  lemma UnknownMarker(a: StoredMessage, marker: string)
    requires a.id != marker
    ensures Behind([a], IndexOf([a], marker)) == [a]
  {
    assert [a][1..] == [] && IndexOf([], marker) == 0;
  }

  lemma StaleSummary(a: StoredMessage, b: StoredMessage, text: string)
    requires a.id != b.id && b.id != ""
    ensures var t := State(Folded(NEW_CHAT.chat, [a, b], text), [a]);
            !Sound(t) && Covered(t.chat.summary) == [a, b] && Recent(t.chat, t.history) == [a]
  {
    var t := State(Folded(NEW_CHAT.chat, [a, b], text), [a]);
    assert Covered(t.chat.summary) == [] + [a, b] == [a, b];
    TooMuchIsCovered(t);
    UnknownMarker(a, b.id);
  }

  /** A chat of three messages of one token each folds two; a rewind to before the second comes
      while the summarizer is at work. The late save keeps the deleted message in the summary and
      the first one is told twice. */
  lemma LateSaveOfTwo(a: StoredMessage, b: StoredMessage, c: StoredMessage, text: string, json: seq<StoredCall> -> string)
    requires Weight(a, json) == Weight(b, json) == Weight(c, json) == 1
    requires a.id != b.id && b.id != ""
    ensures var s := State(NEW_CHAT.chat, [a, b, c]);
            var rewound := Step(s, Rewind(1), json);
            var late := State(Compacted(s.chat, s.history, 2, 50, Some(text), json).chat, rewound.history);
            && rewound == State(NEW_CHAT.chat, [a])
            && !Sound(late) && Covered(late.chat.summary) + Recent(late.chat, late.history) == [a, b, a]
  {
    TwoOfThreeAreFolded(a, b, c, text, json);
    StaleSummary(a, b, text);
    assert [a, b, c][..1] == [a];
  }

  function Word(id: string): StoredMessage {
    StoredMessage(id, User, "word", [])
  }

  lemma LateSaveAfterARewind(json: seq<StoredCall> -> string)
    ensures var s := State(NEW_CHAT.chat, [Word("0"), Word("1"), Word("2")]);
            var late := State(Compacted(s.chat, s.history, 2, 50, Some("summary"), json).chat,
                              Step(s, Rewind(1), json).history);
            !Sound(late) && Covered(late.chat.summary) + Recent(late.chat, late.history) == [Word("0"), Word("1"), Word("0")]
  {
    LateSaveOfTwo(Word("0"), Word("1"), Word("2"), "summary", json);
  }
}
