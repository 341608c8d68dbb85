/** Reassembly of streamed tool-call arguments (backend/src/agent/agent.service.ts, streamResponse):
    deltas are accumulated per chunk index and taken by call id when the call's result arrives. */
module StreamedArgs {
  import opened Collections
  import opened Options

  /** A Map key is a number or a string. */
  datatype Key = Index(n: int) | Id(s: string)

  datatype Chunk = Chunk(index: Option<int>, id: Option<string>, args: Option<string>)

  datatype Acc = Acc(id: Option<string>, args: string)

  /** `c.index ?? c.id ?? 0` */
  function KeyOf(c: Chunk): Key {
    if c.index.Some? then Index(c.index.value) else if c.id.Some? then Id(c.id.value) else Index(0)
  }

  function ArgsOf(c: Chunk): string {
    if c.args.Some? then c.args.value else ""
  }

  function Add(acc: map<Key, Acc>, c: Chunk): map<Key, Acc>
  {
    var k := KeyOf(c);
    var a := if k in acc then acc[k] else Acc(None, "");
    acc[k := Acc(if c.id.Some? && c.id.value != "" then c.id else a.id, a.args + ArgsOf(c))]
  }

  ghost predicate Holds(acc: map<Key, Acc>, k: Key, callId: string) {
    k in acc && acc[k].id == Some(callId)
  }

  ghost predicate OneKeyPerCall(acc: map<Key, Acc>) {
    forall j, k, c :: Holds(acc, j, c) && Holds(acc, k, c) ==> j == k
  }

  /** `acc.args || '{}'`, the text given to JSON.parse. */
  function InputText(args: string): string {
    if args == "" then "{}" else args
  }

  /** What is parsed are the arguments, or an empty object where there are none. */
  ghost predicate Delivers(input: string, args: string) {
    (args != "" ==> input == args) && (args == "" ==> input == "{}")
  }

  class ToolArgs {
    var acc: map<Key, Acc>

    constructor ()
      ensures acc == map[]
    {
      acc := map[];
    }

    method AddChunk(c: Chunk)
      modifies this
      ensures acc == Add(old(acc), c)
    {
      var key := KeyOf(c);
      var a := if key in acc then acc[key] else Acc(None, "");
      if c.id.Some? && c.id.value != "" {
        a := a.(id := c.id);
      }
      if c.args.Some? {
        a := a.(args := a.args + c.args.value);
      } else {
        assert a.args + "" == a.args;
      }
      acc := acc[key := a];
    }

    /** The input of the call and its removal, or nothing when no entry has the id. */
    method TakeToolArgs(callId: string) returns (input: Option<string>)
      modifies this
      ensures input.None? ==> acc == old(acc) && (callId == "" || forall k :: !Holds(acc, k, callId))
      ensures input.Some? ==> callId != ""
      ensures input.Some? ==>
        (exists k :: Holds(old(acc), k, callId) && Delivers(input.value, old(acc)[k].args) && acc == Without(old(acc), k))
    {
      if callId == "" {
        return None;
      }
      var keys := acc.Keys;
      while keys != {}
        invariant keys <= acc.Keys && acc == old(acc)
        invariant forall k <- acc.Keys :: k in keys || acc[k].id != Some(callId)
        decreases keys
      {
        var key :| key in keys;
        if acc[key].id == Some(callId) {
          input := Some(InputText(acc[key].args));
          assert Holds(old(acc), key, callId);
          acc := Without(acc, key);
          return;
        }
        keys := keys - {key};
      }
      return None;
    }

    /** The loop over a response's stream: the input told with each result, in order. */
    method ReadStream(es: seq<Event>) returns (inputs: seq<Option<string>>)
      requires acc == map[]
      modifies this
      ensures WellFormed(es) ==> AllDelivered(inputs, es) && acc == Accumulated(es)
    {
      inputs := [];
      for i := 0 to |es|
        invariant WellFormed(es) ==> AllDelivered(inputs, es[..i]) && acc == Accumulated(es[..i])
      {
        PrefixGrows(es, i);
        match es[i] {
          case Delta(_, chunk) =>
            AddChunk(chunk);
            if WellFormed(es) {
              NothingDelivered(inputs, es[..i], es[i]);
            }
          case Result(call) =>
            var input := TakeToolArgs(call);
            if WellFormed(es) {
              PrefixIsWellFormed(es, i + 1);
              TakingAnswersTheCall(es[..i], call);
              OwnIsTheDeltas(es[..i], call);
              OneMoreDelivered(inputs, es[..i], call, input.value);
            }
            inputs := inputs + [input];
        }
      }
      assert es[..|es|] == es;
    }
  }

  // ── Streams of interleaved calls ──────────────────────────────────────────────

  /** What the stream yields: a delta of some call's arguments, or the result of a call. `call`
      is the id the provider gave the call; the accumulator sees it only where `chunk` has it. */
  datatype Event = Delta(call: string, chunk: Chunk) | Result(call: string)

  function Init(es: seq<Event>): seq<Event>
    requires es != []
  {
    es[..|es| - 1]
  }

  function Last(es: seq<Event>): Event
    requires es != []
  {
    es[|es| - 1]
  }

  /** The calls begun. */
  function Begun(es: seq<Event>): set<string> {
    if es == [] then {} else Begun(Init(es)) + if Last(es).Delta? then {Last(es).call} else {}
  }

  /** The calls begun and not answered, with the key of their first chunk. */
  function Open(es: seq<Event>): map<string, Key>
  {
    if es == [] then map[]
    else
      var o, e := Open(Init(es)), Last(es);
      match e
      case Delta(c, chunk) => if c in o then o else o[c := KeyOf(chunk)]
      case Result(c) => map x <- o | x != c :: o[x]
  }

  /** The deltas of one call, in order. */
  function Own(es: seq<Event>, call: string): string {
    if es == [] then ""
    else Own(Init(es), call) + if Last(es).Delta? && Last(es).call == call then ArgsOf(Last(es).chunk) else ""
  }

  /** What providers send. A call's first chunk carries its id, at a key no open call uses; its
      later chunks come at the same key, with its id or none; a result answers an open call. Ids
      are not reused; keys are, once the call that had them is answered. */
  ghost predicate WellFormed(es: seq<Event>)
  {
    if es == [] then true
    else
      var o, e := Open(Init(es)), Last(es);
      && WellFormed(Init(es))
      && match e
         case Delta(c, chunk) =>
           if c in o then KeyOf(chunk) == o[c] && (chunk.id.None? || chunk.id.value == "" || chunk.id.value == c)
           else c != "" && c !in Begun(Init(es)) && chunk.id == Some(c) && KeyOf(chunk) !in o.Values
         case Result(c) => c in o
  }

  /** The accumulator after the stream. */
  ghost function Accumulated(es: seq<Event>): map<Key, Acc>
  {
    if es == [] then map[]
    else
      match Last(es)
      case Delta(_, chunk) => Add(Accumulated(Init(es)), chunk)
      case Result(c) => WithoutCall(Accumulated(Init(es)), c)
  }

  /** The entry that is taken, gone. */
  ghost function WithoutCall(acc: map<Key, Acc>, call: string): map<Key, Acc> {
    if k :| Holds(acc, k, call) then Without(acc, k) else acc
  }

  ghost predicate Mirrors(acc: map<Key, Acc>, es: seq<Event>)
  {
    var o := Open(es);
    && (forall c <- o :: c != "" && c in Begun(es) && o[c] in acc && acc[o[c]] == Acc(Some(c), Own(es, c)))
    && (forall k <- acc :: acc[k].id.Some? && acc[k].id.value in o && o[acc[k].id.value] == k)
  }

  lemma {:induction false} UnbegunHasNoDelta(es: seq<Event>, c: string)
    requires c !in Begun(es)
    ensures Own(es, c) == ""
  {
    if es != [] {
      UnbegunHasNoDelta(Init(es), c);
    }
  }

  /** The accumulator holds exactly the open calls, each with its own deltas in order. */
  lemma {:induction false} AccumulatorMirrorsStream(es: seq<Event>)
    requires WellFormed(es)
    ensures Mirrors(Accumulated(es), es) && OneKeyPerCall(Accumulated(es))
  {
    if es != [] {
      var before := Init(es);
      AccumulatorMirrorsStream(before);
      match Last(es)
      case Delta(c, chunk) =>
        if c !in Open(before) {
          UnbegunHasNoDelta(before, c);
          DeltaOpens(before, es, c, chunk);
        } else {
          DeltaContinues(before, es, c, chunk);
        }
      case Result(c) =>
        ResultCloses(before, es, c);
    }
  }

  lemma DeltaOpens(before: seq<Event>, es: seq<Event>, c: string, chunk: Chunk)
    requires es == before + [Delta(c, chunk)] && Mirrors(Accumulated(before), before)
    requires c !in Open(before) && c != "" && chunk.id == Some(c) && KeyOf(chunk) !in Open(before).Values && Own(before, c) == ""
    ensures Mirrors(Add(Accumulated(before), chunk), es)
  {
    assert Init(es) == before && Last(es) == Delta(c, chunk);
    assert forall k <- Accumulated(before) :: Open(before)[Accumulated(before)[k].id.value] == k;
    assert KeyOf(chunk) !in Accumulated(before);
    assert forall d <- Open(before) :: Own(es, d) == Own(before, d) + "" == Own(before, d);
    assert Own(es, c) == "" + ArgsOf(chunk) == ArgsOf(chunk);
  }

  lemma DeltaContinues(before: seq<Event>, es: seq<Event>, c: string, chunk: Chunk)
    requires es == before + [Delta(c, chunk)] && Mirrors(Accumulated(before), before)
    requires c in Open(before) && KeyOf(chunk) == Open(before)[c]
    requires chunk.id.None? || chunk.id.value == "" || chunk.id.value == c
    ensures Mirrors(Add(Accumulated(before), chunk), es)
  {
    assert Init(es) == before && Last(es) == Delta(c, chunk);
    var acc := Accumulated(before);
    assert forall d <- Open(before) | d != c :: Open(before)[d] != Open(before)[c] by {
      forall d <- Open(before) | d != c ensures Open(before)[d] != Open(before)[c] {
        assert acc[Open(before)[d]].id == Some(d) && acc[Open(before)[c]].id == Some(c);
      }
    }
    assert forall d <- Open(before) | d != c :: Own(es, d) == Own(before, d) + "" == Own(before, d);
  }

  lemma ResultCloses(before: seq<Event>, es: seq<Event>, c: string)
    requires es == before + [Result(c)] && Mirrors(Accumulated(before), before) && c in Open(before)
    ensures Mirrors(WithoutCall(Accumulated(before), c), es)
  {
    assert Init(es) == before && Last(es) == Result(c);
    var acc := Accumulated(before);
    assert Holds(acc, Open(before)[c], c);
    assert forall k :: Holds(acc, k, c) ==> k == Open(before)[c];
    assert forall d <- Open(before) | d != c :: acc[Open(before)[d]].id == Some(d);
    assert forall d <- Open(before) :: Own(es, d) == Own(before, d) + "" == Own(before, d);
  }

  /** However the arguments of parallel calls are cut and interleaved, and whichever indexes later
      calls reuse, the entry taken when a call's result arrives holds exactly the concatenation
      of that call's own deltas, and it is the only entry with the call's id. */
  lemma TakenInputIsTheCallsOwn(es: seq<Event>, c: string, k: Key)
    requires WellFormed(es + [Result(c)])
    ensures Holds(Accumulated(es), k, c) <==> k == Open(es)[c]
    ensures Holds(Accumulated(es), k, c) ==> Accumulated(es)[k].args == Own(es, c)
  {
    assert Init(es + [Result(c)]) == es;
    AccumulatorMirrorsStream(es);
  }

  /** Where no two entries have one id, removing the entry found is removing the call's. */
  lemma OneEntryIsTheCalls(acc: map<Key, Acc>, k: Key, c: string)
    requires OneKeyPerCall(acc) && Holds(acc, k, c)
    ensures WithoutCall(acc, c) == Without(acc, k)
  {
    assert forall j :: Holds(acc, j, c) ==> j == k;
  }

  /** After a well-formed stream the answered call has an entry, and taking it gives the call's
      own input and leaves what the stream with the result leaves. */
  lemma TakingAnswersTheCall(es: seq<Event>, c: string)
    requires WellFormed(es + [Result(c)])
    ensures c != "" && exists k :: Holds(Accumulated(es), k, c)
    ensures forall k :: Holds(Accumulated(es), k, c) ==>
      && Accumulated(es)[k].args == Own(es, c)
      && Without(Accumulated(es), k) == Accumulated(es + [Result(c)])
  {
    var all := es + [Result(c)];
    assert Init(all) == es && Last(all) == Result(c);
    AccumulatorMirrorsStream(es);
    TakenInputIsTheCallsOwn(es, c, Open(es)[c]);
    forall k | Holds(Accumulated(es), k, c)
      ensures Accumulated(es)[k].args == Own(es, c) && Without(Accumulated(es), k) == Accumulated(all)
    {
      TakenInputIsTheCallsOwn(es, c, k);
      OneEntryIsTheCalls(Accumulated(es), k, c);
    }
  }

  /** The arguments of the call's deltas, as they came. */
  function Deltas(es: seq<Event>, call: string): seq<string> {
    if es == [] then []
    else
      Deltas(Init(es), call)
      + match Last(es)
        case Delta(c, Chunk(_, _, Some(args))) => if c == call then [args] else []
        case _ => []
  }

  /** A call's own text is its deltas' arguments, one after the other. */
  lemma {:induction false} OwnIsTheDeltas(es: seq<Event>, call: string)
    ensures Own(es, call) == Flat(Deltas(es, call))
  {
    if es != [] {
      OwnIsTheDeltas(Init(es), call);
      var before, all := Deltas(Init(es), call), Deltas(es, call);
      if |all| > |before| {
        assert all[..|before|] == before;
      } else {
        assert all == before;
      }
    }
  }

  /** How many results the stream holds. */
  function ResultCount(es: seq<Event>): nat {
    if es == [] then 0 else ResultCount(Init(es)) + if Last(es).Result? then 1 else 0
  }

  /** One input for each result, in order: the arguments of that call's deltas before it. */
  ghost predicate AllDelivered(inputs: seq<Option<string>>, es: seq<Event>) {
    && |inputs| == ResultCount(es)
    && forall i | 0 <= i < |es| && es[i].Result? ::
         var n := ResultCount(es[..i]);
         n < |inputs| && inputs[n].Some? && Delivers(inputs[n].value, Flat(Deltas(es[..i], es[i].call)))
  }

  lemma {:induction false} CountGrows(es: seq<Event>, i: nat)
    requires i < |es|
    ensures ResultCount(es[..i]) + (if es[i].Result? then 1 else 0) <= ResultCount(es)
  {
    var n := |es| - 1;
    if i == n {
      assert es[..i] == Init(es);
    } else {
      CountGrows(Init(es), i);
      assert Init(es)[..i] == es[..i];
    }
  }

  lemma NothingDelivered(inputs: seq<Option<string>>, es: seq<Event>, e: Event)
    requires AllDelivered(inputs, es) && e.Delta?
    ensures AllDelivered(inputs, es + [e])
  {
    var all := es + [e];
    assert Init(all) == es;
    forall i | 0 <= i < |all| && all[i].Result?
      ensures all[..i] == es[..i] && all[i] == es[i]
    {
    }
  }

  lemma OneMoreDelivered(inputs: seq<Option<string>>, es: seq<Event>, c: string, input: string)
    requires AllDelivered(inputs, es) && Delivers(input, Flat(Deltas(es, c)))
    ensures AllDelivered(inputs + [Some(input)], es + [Result(c)])
  {
    var all, more := es + [Result(c)], inputs + [Some(input)];
    assert Init(all) == es;
    forall i | 0 <= i < |all| && all[i].Result?
      ensures var n := ResultCount(all[..i]);
              n < |more| && more[n].Some? && Delivers(more[n].value, Flat(Deltas(all[..i], all[i].call)))
    {
      if i < |es| {
        assert all[..i] == es[..i] && all[i] == es[i];
        CountGrows(es, i);
      } else {
        assert all[..i] == es;
      }
    }
  }

  lemma {:induction false} PrefixIsWellFormed(es: seq<Event>, n: nat)
    requires WellFormed(es) && n <= |es|
    ensures WellFormed(es[..n])
  {
    if n == |es| {
      assert es[..n] == es;
    } else {
      assert Init(es)[..n] == es[..n];
      PrefixIsWellFormed(Init(es), n);
    }
  }

  lemma PrefixGrows(es: seq<Event>, i: nat)
    requires i < |es|
    ensures Init(es[..i + 1]) == es[..i] && Last(es[..i + 1]) == es[i] && es[..i + 1] == es[..i] + [es[i]]
  {
  }

  // ── What providers send is well-formed ────────────────────────────────────────

  /** Every delta carries its call's index, which no other open call has at the time; the id
      comes with the first delta and may be left out later. */
  ghost predicate Indexed(es: seq<Event>, at: string -> int) {
    es == []
    || (&& Indexed(Init(es), at)
        && var open := Open(Init(es)).Keys;
           match Last(es)
           case Delta(c, chunk) =>
             && chunk.index == Some(at(c))
             && (if c in open then chunk.id.None? || chunk.id.value == "" || chunk.id.value == c
                 else c != "" && c !in Begun(Init(es)) && chunk.id == Some(c) && forall d <- open :: at(d) != at(c))
           case Result(c) => c in open)
  }

  /** So it is for parallel calls told apart by index, also when a later call takes the index of
      one that was answered. */
  lemma {:induction false} IndexedIsWellFormed(es: seq<Event>, at: string -> int)
    requires Indexed(es, at)
    ensures WellFormed(es) && forall c <- Open(es) :: Open(es)[c] == Index(at(c))
  {
    if es != [] {
      IndexedIsWellFormed(Init(es), at);
    }
  }

  /** No delta carries an index, and every one its call's id. */
  ghost predicate Labelled(es: seq<Event>) {
    es == []
    || (&& Labelled(Init(es))
        && var open := Open(Init(es)).Keys;
           match Last(es)
           case Delta(c, chunk) =>
             chunk.index == None && chunk.id == Some(c) && (c in open || (c != "" && c !in Begun(Init(es))))
           case Result(c) => c in open)
  }

  lemma {:induction false} LabelledIsWellFormed(es: seq<Event>)
    requires Labelled(es)
    ensures WellFormed(es) && forall c <- Open(es) :: Open(es)[c] == Id(c)
  {
    if es != [] {
      LabelledIsWellFormed(Init(es));
    }
  }
}
