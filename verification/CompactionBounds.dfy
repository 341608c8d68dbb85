/** How much one compaction folds and how much it keeps. */
module CompactionBounds {
  import opened Compaction
  import opened Options
  import opened Replay

  lemma {:induction false} TotalOfSuffix(ms: seq<StoredMessage>, k: nat, json: seq<StoredCall> -> string)
    requires k <= |ms|
    ensures Total(ms[k..], json) <= Total(ms, json)
  {
    if k > 0 {
      assert ms[1..][k - 1..] == ms[k..];
      TotalOfSuffix(ms[1..], k - 1, json);
    }
  }

  /** The kept part starts at the earliest message from which everything fits the budget, or
      at the newest message when not even that one fits. */
  lemma {:induction false} KeptIsTheLongestThatFits(ms: seq<StoredMessage>, budget: nat, json: seq<StoredCall> -> string, k: nat)
    requires k <= |ms| && ms != []
    requires k < |ms| - 1 ==> Total(ms[k..], json) <= budget
    ensures var from := KeepFrom(ms, budget, json, k);
            && from < |ms|
            && (Total(ms[from..], json) <= budget || from == |ms| - 1)
            && (from > 0 ==> Total(ms[from - 1..], json) > budget)
    decreases k
  {
    if k > 0 && (k == |ms| || Total(ms[k - 1..], json) <= budget) {
      KeptIsTheLongestThatFits(ms, budget, json, k - 1);
    }
  }

  lemma {:induction false} NothingEarlierFits(ms: seq<StoredMessage>, budget: nat, json: seq<StoredCall> -> string, from: nat, i: nat)
    requires i < from <= |ms| && Total(ms[from - 1..], json) > budget
    ensures Total(ms[i..], json) > budget
  {
    assert ms[i..][from - 1 - i..] == ms[from - 1..];
    TotalOfSuffix(ms[i..], from - 1 - i, json);
  }

  /** The kept part of a successful compaction: never empty, always a suffix, at most half the
      trigger unless it is the newest message alone, and no longer suffix would do. */
  lemma KeptPartBounds(chat: Chat, history: seq<StoredMessage>, maxTokens: nat, threshold: int,
                       text: string, json: seq<StoredCall> -> string)
    requires Compacted(chat, history, maxTokens, threshold, Some(text), json).chat != chat
    ensures var kept, recent := Compacted(chat, history, maxTokens, threshold, Some(text), json).effective, Recent(chat, history);
            && 0 < |kept| < |recent| && kept == recent[|recent| - |kept|..]
            && (|kept| == 1 || Total(kept, json) <= Trigger(maxTokens, threshold) / 2)
            && (forall i: nat :: i < |recent| - |kept| ==> Total(recent[i..], json) > Trigger(maxTokens, threshold) / 2)
  {
    var recent, budget := Recent(chat, history), Trigger(maxTokens, threshold) / 2;
    var from := KeepFrom(recent, budget, json, |recent|);
    KeptIsTheLongestThatFits(recent, budget, json, |recent|);
    forall i: nat | i < from
      ensures Total(recent[i..], json) > budget
    {
      NothingEarlierFits(recent, budget, json, from, i);
    }
  }

  predicate ExceedsTheTrigger(chat: Chat, recent: seq<StoredMessage>, trigger: nat, json: seq<StoredCall> -> string) {
    SummaryWeight(chat) + Total(recent, json) > trigger && |recent| > 1 && Total(recent, json) > trigger / 2
  }

  /** A compaction whose summarizer answers folds something exactly when the summary and the
      recent messages exceed the trigger and there are older messages that do not fit half of it. */
  lemma FoldsIff(chat: Chat, history: seq<StoredMessage>, maxTokens: nat, threshold: int,
                 text: string, json: seq<StoredCall> -> string)
    ensures Compacted(chat, history, maxTokens, threshold, Some(text), json).effective != Recent(chat, history)
       <==> ExceedsTheTrigger(chat, Recent(chat, history), Trigger(maxTokens, threshold), json)
  {
    var recent, budget := Recent(chat, history), Trigger(maxTokens, threshold) / 2;
    if recent != [] {
      KeptIsTheLongestThatFits(recent, budget, json, |recent|);
      var from := KeepFrom(recent, budget, json, |recent|);
      assert recent[0..] == recent;
      if from > 0 {
        NothingEarlierFits(recent, budget, json, from, 0);
      }
    }
  }

  lemma {:induction false} KeptIsKeptAgain(ms: seq<StoredMessage>, budget: nat, json: seq<StoredCall> -> string, k: nat)
    requires k <= |ms| && (|ms| <= 1 || Total(ms, json) <= budget)
    ensures KeepFrom(ms, budget, json, k) == 0
  {
    if k > 0 {
      if k < |ms| {
        TotalOfSuffix(ms, k - 1, json);
      }
      KeptIsKeptAgain(ms, budget, json, k - 1);
    }
  }

  /** What follows the last folded message is what was kept. */
  lemma MarkerFollowsTheFold(chat: Chat, history: seq<StoredMessage>, turns: seq<StoredMessage>, text: string)
    requires DistinctIds(history) && turns != [] && turns[|turns| - 1].id != ""
    requires turns <= Recent(chat, history)
    ensures Recent(Folded(chat, turns, text), history) == Recent(chat, history)[|turns|..]
  {
    var recent := Recent(chat, history);
    var start := |history| - |recent|;
    assert recent == history[start..];
    FollowsThePrefix(history, start, turns);
  }

  lemma FollowsThePrefix(history: seq<StoredMessage>, start: nat, turns: seq<StoredMessage>)
    requires DistinctIds(history) && start <= |history| && turns != [] && turns <= history[start..]
    ensures Behind(history, IndexOf(history, turns[|turns| - 1].id)) == history[start..][|turns|..]
  {
    var at := start + |turns| - 1;
    assert history[at] == turns[|turns| - 1];
    IndexOfIts(history, at);
  }

  /** Until a new message arrives, a second compaction changes nothing and gives the same
      messages: one compaction is always enough, whatever the summarizer answered. */
  lemma CompactionSettles(chat: Chat, history: seq<StoredMessage>, maxTokens: nat, threshold: int,
                          text: string, again: Option<string>, json: seq<StoredCall> -> string)
    requires DistinctIds(history) && forall m <- history :: m.id != ""
    ensures var out := Compacted(chat, history, maxTokens, threshold, Some(text), json);
            Compacted(out.chat, history, maxTokens, threshold, again, json) == out
  {
    var out := Compacted(chat, history, maxTokens, threshold, Some(text), json);
    var recent, budget := Recent(chat, history), Trigger(maxTokens, threshold) / 2;
    if out.chat != chat {
      var from := KeepFrom(recent, budget, json, |recent|);
      KeptIsTheLongestThatFits(recent, budget, json, |recent|);
      assert forall m <- recent :: m in history;
      MarkerFollowsTheFold(chat, history, recent[..from], text);
      KeptIsKeptAgain(out.effective, budget, json, |out.effective|);
    }
  }

  // ---- In characters and per cent

  /** `w` is a quarter of `chars`, rounded up. */
  predicate IsQuarter(w: nat, chars: nat) {
    chars <= 4 * w < chars + 4
  }

  /** A message weighs a token for every four characters of its words, and as much again for
      those its calls print as, if it has any; a summary weighs its text. */
  lemma WeightsAreQuarters(m: StoredMessage, chat: Chat, json: seq<StoredCall> -> string)
    ensures m.calls == [] ==> IsQuarter(Weight(m, json), |m.content|)
    ensures m.calls != [] ==> exists words: nat, calls: nat ::
              Weight(m, json) == words + calls && IsQuarter(words, |m.content|) && IsQuarter(calls, |json(m.calls)|)
    ensures if chat.summary.None? then SummaryWeight(chat) == 0 else IsQuarter(SummaryWeight(chat), |chat.summary.value.text|)
  {
    if m.calls != [] {
      var words, calls := Est(m.content), Est(json(m.calls));
      assert Weight(m, json) == words + calls && IsQuarter(words, |m.content|) && IsQuarter(calls, |json(m.calls)|);
    }
  }

  lemma {:induction false} TotalConcat(a: seq<StoredMessage>, b: seq<StoredMessage>, json: seq<StoredCall> -> string)
    ensures Total(a + b, json) == Total(a, json) + Total(b, json)
  {
    if a == [] {
      assert a + b == b;
    } else {
      assert (a + b)[1..] == a[1..] + b;
      TotalConcat(a[1..], b, json);
    }
  }

  lemma TotalOfOne(m: StoredMessage, json: seq<StoredCall> -> string)
    ensures Total([m], json) == Weight(m, json)
  {
    assert [m][1..] == [];
  }

  /** The trigger is the setting's share of the budget, rounded down: 80 per cent when it is not
      set, never less than 50 nor more than 95. */
  lemma TriggerIsTheShare(maxTokens: nat, threshold: int)
    ensures var pct := if threshold == 0 then 80 else if threshold < 50 then 50 else if threshold > 95 then 95 else threshold;
            100 * Trigger(maxTokens, threshold) <= pct * maxTokens < 100 * Trigger(maxTokens, threshold) + 100
  {
  }

  /** What a compaction that folds writes: a summary of what was not kept, after the one before;
      the last folded message's id; the new text's weight. The memory marker is left alone. */
  lemma FoldWrites(chat: Chat, history: seq<StoredMessage>, maxTokens: nat, threshold: int,
                   text: string, json: seq<StoredCall> -> string)
    requires Compacted(chat, history, maxTokens, threshold, Some(text), json).chat != chat
    ensures var out, recent := Compacted(chat, history, maxTokens, threshold, Some(text), json), Recent(chat, history);
            && |out.effective| < |recent|
            && var turns := recent[..|recent| - |out.effective|];
               && out.chat.summary == Some(Summary(chat.summary, turns, text))
               && out.chat.summaryUpTo == Some(turns[|turns| - 1].id) && out.chat.memoryUpTo == chat.memoryUpTo
               && out.chat.summaryTokens.Some? && IsQuarter(out.chat.summaryTokens.value, |text|)
  {
    var recent := Recent(chat, history);
    var from := KeepFrom(recent, Trigger(maxTokens, threshold) / 2, json, |recent|);
    assert |recent[from..]| == |recent| - from;
  }

  /** A rewind clears the summary with its marker and weight, and the memory marker, each exactly
      when it marks a deleted message; what it does not clear stays. */
  lemma RewindClearsIff(chat: Chat, deleted: seq<string>)
    ensures var after := Cleared(chat, deleted);
            && (if chat.summaryUpTo.Some? && chat.summaryUpTo.value != "" && chat.summaryUpTo.value in deleted
                then after.summary == None && after.summaryUpTo == None && after.summaryTokens == None
                else after.summary == chat.summary && after.summaryUpTo == chat.summaryUpTo
                     && after.summaryTokens == chat.summaryTokens)
            && after.memoryUpTo == if chat.memoryUpTo.Some? && chat.memoryUpTo.value != "" && chat.memoryUpTo.value in deleted
                                   then None else chat.memoryUpTo
  {
  }
}
