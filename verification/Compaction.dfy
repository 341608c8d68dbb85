/** Rolling-summary compaction of a chat's history (backend/src/agent/agent.service.ts,
    compactHistory) and the markers a rewind clears (backend/src/chats/chats.service.ts). */
module Compaction {
  import opened Options
  import opened Replay

  /** A summary and what the summarizer was given to make it. */
  datatype Summary = Summary(previous: Option<Summary>, turns: seq<StoredMessage>, text: string)

  datatype Chat = Chat(summary: Option<Summary>, summaryUpTo: Option<string>, summaryTokens: Option<nat>,
                       memoryUpTo: Option<string>)

  /** The messages a summary stands for, oldest first. */
  function Covered(summary: Option<Summary>): seq<StoredMessage>
    decreases summary
  {
    match summary
    case None => []
    case Some(s) => Covered(s.previous) + s.turns
  }

  function Est(s: string): nat {
    (|s| + 3) / 4
  }

  /** Estimated weight of a message; `json` is how its tool calls print. */
  function Weight(m: StoredMessage, json: seq<StoredCall> -> string): nat {
    Est(m.content) + if m.calls == [] then 0 else Est(json(m.calls))
  }

  function Total(ms: seq<StoredMessage>, json: seq<StoredCall> -> string): nat {
    if ms == [] then 0 else Weight(ms[0], json) + Total(ms[1..], json)
  }

  /** Position of the first message with the id, or |ms|. */
  function IndexOf(ms: seq<StoredMessage>, id: string): (at: nat)
    ensures at <= |ms|
    ensures at < |ms| ==> ms[at].id == id
  {
    if ms == [] || ms[0].id == id then 0 else 1 + IndexOf(ms[1..], id)
  }

  /** A message is found by its id. */
  lemma {:induction false} IndexOfIts(ms: seq<StoredMessage>, k: nat)
    requires DistinctIds(ms) && k < |ms|
    ensures IndexOf(ms, ms[k].id) == k
  {
    if k > 0 {
      assert forall i | 0 <= i < |ms| - 1 :: ms[1..][i] == ms[i + 1];
      assert ms[0].id != ms[k].id;
      IndexOfIts(ms[1..], k - 1);
    }
  }

  /** An absent marker and an empty one are both "no marker". */
  predicate Marks(marker: Option<string>) {
    marker.Some? && marker.value != ""
  }

  /** The messages the summary does not stand for. */
  function Recent(chat: Chat, history: seq<StoredMessage>): seq<StoredMessage> {
    if !Marks(chat.summaryUpTo) then history else Behind(history, IndexOf(history, chat.summaryUpTo.value))
  }

  /** What comes after position `at`; everything when there is no such position. */
  function Behind(history: seq<StoredMessage>, at: nat): seq<StoredMessage>
    requires at <= |history|
  {
    if at == |history| then history else history[at + 1..]
  }

  function SummaryWeight(chat: Chat): nat {
    if chat.summary.None? then 0 else Est(chat.summary.value.text)
  }

  function Percent(threshold: int): (pct: int)
    ensures 50 <= pct <= 95
  {
    var t := if threshold == 0 then 80 else threshold;
    if t < 50 then 50 else if t > 95 then 95 else t
  }

  function Trigger(maxTokens: nat, threshold: int): nat {
    maxTokens * Percent(threshold) / 100
  }

  /** Where the kept part starts, walking back from position k, which is kept already. */
  function KeepFrom(recent: seq<StoredMessage>, budget: nat, json: seq<StoredCall> -> string, k: nat): (from: nat)
    requires k <= |recent|
    ensures from <= k
  {
    if k > 0 && (k == |recent| || Total(recent[k - 1..], json) <= budget) then KeepFrom(recent, budget, json, k - 1) else k
  }

  datatype Outcome = Outcome(chat: Chat, effective: seq<StoredMessage>)

  /** One compaction; `reply` is what the summarizer answers if asked, None when it fails. */
  function Compacted(chat: Chat, history: seq<StoredMessage>, maxTokens: nat, threshold: int,
                     reply: Option<string>, json: seq<StoredCall> -> string): Outcome
  {
    CompactedFrom(chat, Recent(chat, history), Trigger(maxTokens, threshold), reply, json)
  }

  function CompactedFrom(chat: Chat, recent: seq<StoredMessage>, trigger: nat, reply: Option<string>,
                         json: seq<StoredCall> -> string): Outcome
  {
    if SummaryWeight(chat) + Total(recent, json) <= trigger then Outcome(chat, recent)
    else FoldedAt(chat, recent, KeepFrom(recent, trigger / 2, json, |recent|), reply)
  }

  /** The messages before `from` go into the summary, if there are any and the summarizer answers. */
  function FoldedAt(chat: Chat, recent: seq<StoredMessage>, from: nat, reply: Option<string>): Outcome
    requires from <= |recent|
  {
    if from == 0 || reply.None? then Outcome(chat, recent)
    else Outcome(Folded(chat, recent[..from], reply.value), recent[from..])
  }

  function Folded(chat: Chat, turns: seq<StoredMessage>, text: string): Chat
    requires turns != []
  {
    Chat(Some(Summary(chat.summary, turns, text)), Some(turns[|turns| - 1].id), Some(Est(text)), chat.memoryUpTo)
  }

  /** The markers after the messages with the given ids are deleted. */
  function Cleared(chat: Chat, deleted: seq<string>): Chat {
    var memoryUpTo := if Marks(chat.memoryUpTo) && chat.memoryUpTo.value in deleted then None else chat.memoryUpTo;
    if Marks(chat.summaryUpTo) && chat.summaryUpTo.value in deleted then Chat(None, None, None, memoryUpTo)
    else chat.(memoryUpTo := memoryUpTo)
  }

  /** The chats table as the two services see it. */
  class ChatRows {
    var chats: map<string, Chat>

    constructor (chats: map<string, Chat>)
      ensures this.chats == chats
    {
      this.chats := chats;
    }

    /** `reply` answers the one call of the summarizer this call may make. */
    method CompactHistory(chatId: Option<string>, history: seq<StoredMessage>, maxTokens: int, enabled: bool,
                          threshold: int, reply: Option<string>, json: seq<StoredCall> -> string)
        returns (summary: Option<Summary>, effective: seq<StoredMessage>)
      modifies this
      ensures !enabled || !Marks(chatId) || maxTokens <= 0 || chatId.value !in old(chats) ==>
                chats == old(chats) && summary == None && effective == history
      ensures enabled && Marks(chatId) && maxTokens > 0 && chatId.value in old(chats) ==>
                var out := Compacted(old(chats)[chatId.value], history, maxTokens, threshold, reply, json);
                && chats == old(chats)[chatId.value := out.chat]
                && summary == out.chat.summary && effective == out.effective
    {
      if !enabled || !Marks(chatId) || maxTokens <= 0 || chatId.value !in chats {
        return None, history;
      }
      var chat, kept := CompactChat(chats[chatId.value], history, maxTokens, threshold, reply, json);
      chats := chats[chatId.value := chat];
      return chat.summary, kept;
    }

    method ClearStaleMarkers(chatId: string, deletedIds: seq<string>)
      modifies this
      ensures chats == if chatId in old(chats) then old(chats)[chatId := Cleared(old(chats)[chatId], deletedIds)]
                       else old(chats)
    {
      if deletedIds == [] || chatId !in chats {
        return;
      }
      var chat := chats[chatId];
      var patched := chat;
      if Marks(chat.summaryUpTo) && chat.summaryUpTo.value in deletedIds {
        patched := patched.(summary := None, summaryUpTo := None, summaryTokens := None);
      }
      if Marks(chat.memoryUpTo) && chat.memoryUpTo.value in deletedIds {
        patched := patched.(memoryUpTo := None);
      }
      if patched != chat {
        chats := chats[chatId := patched];
      }
    }
  }

  method RecentMessages(chat: Chat, history: seq<StoredMessage>) returns (recent: seq<StoredMessage>)
    ensures recent == Recent(chat, history)
  {
    recent := history;
    if Marks(chat.summaryUpTo) {
      var idx := FindIndex(history, chat.summaryUpTo.value);
      if idx >= 0 {
        recent := history[idx + 1..];
      }
      assert recent == Behind(history, if idx >= 0 then idx else |history|);
    }
  }

  /** The branches of one compaction, on the chat's row. */
  method CompactChat(chat: Chat, history: seq<StoredMessage>, maxTokens: nat, threshold: int,
                     reply: Option<string>, json: seq<StoredCall> -> string)
      returns (row: Chat, effective: seq<StoredMessage>)
    ensures Outcome(row, effective) == Compacted(chat, history, maxTokens, threshold, reply, json)
  {
    var recent := RecentMessages(chat, history);
    row, effective := CompactRecent(chat, recent, maxTokens * Percent(threshold) / 100, reply, json);
  }

  /** The same once the recent messages and the trigger are known. */
  method CompactRecent(chat: Chat, recent: seq<StoredMessage>, triggerTok: nat, reply: Option<string>,
                       json: seq<StoredCall> -> string)
      returns (row: Chat, effective: seq<StoredMessage>)
    ensures Outcome(row, effective) == CompactedFrom(chat, recent, triggerTok, reply, json)
  {
    var summaryTok := if chat.summary.Some? then Est(chat.summary.value.text) else 0;
    var recentTok := SumTokens(recent, json);
    if summaryTok + recentTok <= triggerTok {
      return chat, recent;
    }
    var keepFrom := FindKeepFrom(recent, triggerTok / 2, json);
    row, effective := FoldBefore(chat, recent, keepFrom, reply);
  }

  method FoldBefore(chat: Chat, recent: seq<StoredMessage>, keepFrom: nat, reply: Option<string>)
      returns (row: Chat, effective: seq<StoredMessage>)
    requires keepFrom <= |recent|
    ensures Outcome(row, effective) == FoldedAt(chat, recent, keepFrom, reply)
  {
    var toSummarize, toKeep := recent[..keepFrom], recent[keepFrom..];
    if toSummarize == [] || reply.None? {
      return chat, recent;
    }
    row := Fold(chat, toSummarize, reply.value);
    return row, toKeep;
  }

  method Fold(chat: Chat, toSummarize: seq<StoredMessage>, newSummary: string) returns (row: Chat)
    requires toSummarize != []
    ensures row == Folded(chat, toSummarize, newSummary)
  {
    row := chat.(summary := Some(Summary(chat.summary, toSummarize, newSummary)));
    row := row.(summaryUpTo := Some(toSummarize[|toSummarize| - 1].id));
    row := row.(summaryTokens := Some(Est(newSummary)));
  }

  method FindIndex(ms: seq<StoredMessage>, id: string) returns (idx: int)
    ensures idx == if IndexOf(ms, id) < |ms| then IndexOf(ms, id) else -1
  {
    for i := 0 to |ms|
      invariant IndexOf(ms, id) == i + IndexOf(ms[i..], id)
    {
      if ms[i].id == id {
        return i;
      }
      assert ms[i..][1..] == ms[i + 1..];
    }
    return -1;
  }

  method SumTokens(ms: seq<StoredMessage>, json: seq<StoredCall> -> string) returns (sum: nat)
    ensures sum == Total(ms, json)
  {
    sum := 0;
    for i := 0 to |ms|
      invariant sum + Total(ms[i..], json) == Total(ms, json)
    {
      assert ms[i..][1..] == ms[i + 1..];
      sum := sum + Weight(ms[i], json);
    }
  }

  /** The backward scan that decides what stays verbatim. */
  method FindKeepFrom(recent: seq<StoredMessage>, keepBudget: nat, json: seq<StoredCall> -> string)
      returns (keepFrom: nat)
    ensures keepFrom == KeepFrom(recent, keepBudget, json, |recent|)
  {
    var keepTok := 0;
    keepFrom := |recent|;
    var i := |recent| - 1;
    while i >= 0
      invariant i == keepFrom - 1 && keepFrom <= |recent|
      invariant keepTok == Total(recent[keepFrom..], json)
      invariant KeepFrom(recent, keepBudget, json, keepFrom) == KeepFrom(recent, keepBudget, json, |recent|)
    {
      var t := Weight(recent[i], json);
      assert recent[i..][1..] == recent[i + 1..];
      if keepTok + t > keepBudget && keepFrom < |recent| {
        break;
      }
      keepTok := keepTok + t;
      keepFrom := i;
      i := i - 1;
    }
  }
}
