/** A selection awaits its batch: what overlapping selections do to the embedding cache
    (backend/src/agent/tool-selection.service.ts). */
module CacheRaces {
  import opened JsText
  import opened Options
  import opened ToolSelection
  import opened ToolSelectionGuarantees

  lemma {:induction false} FilledExactly(was: map<string, Vec>, texts: seq<string>, m: Model, identity: string, text: string)
    ensures var filled := Filled(was, texts, Embedded(m, identity, texts));
            && (text in filled <==> text in was || text in texts)
            && (text in texts ==> filled[text] == m.embed(identity, text))
            && (text !in texts && text in was ==> filled[text] == was[text])
  {
    if texts != [] {
      var n := |texts| - 1;
      assert Embedded(m, identity, texts)[..n] == Embedded(m, identity, texts[..n]);
      assert texts == texts[..n] + [texts[n]];
      FilledExactly(was, texts[..n], m, identity, text);
    }
  }

  predicate AgreeOn(m: Model, a: string, b: string, texts: seq<string>) {
    forall text | text in texts :: m.embed(a, text) == m.embed(b, text)
  }

  /** The batch is awaited, and another selection may renew the cache's identity meanwhile. A
      batch stored then leaves the cache true exactly when the two models embed its texts alike. */
  lemma LateStoreIsTrueIff(cache: Cache, texts: seq<string>, identity: string, m: Model)
    requires CacheIsTrue(cache, m) && cache.identity.Some?
    ensures CacheIsTrue(Stored(cache, texts, identity, m), m) <==> AgreeOn(m, identity, cache.identity.value, texts)
  {
    var late := Stored(cache, texts, identity, m);
    forall text
      ensures text in late.vectors <==> text in cache.vectors || text in texts
      ensures text in texts ==> late.vectors[text] == m.embed(identity, text)
      ensures text !in texts && text in cache.vectors ==> late.vectors[text] == cache.vectors[text]
    {
      FilledExactly(cache.vectors, texts, m, identity, text);
    }
  }

  /** So for models that embed no text alike: exactly when the identity at the store is the one
      asked for, or no text was uncached. */
  lemma LateStoreNeedsTheSameIdentity(cache: Cache, texts: seq<string>, identity: string, m: Model)
    requires CacheIsTrue(cache, m) && cache.identity.Some?
    requires forall text :: m.embed(identity, text) == m.embed(cache.identity.value, text) ==> cache.identity == Some(identity)
    ensures CacheIsTrue(Stored(cache, texts, identity, m), m) <==> cache.identity == Some(identity) || texts == []
  {
    LateStoreIsTrueIff(cache, texts, identity, m);
    if texts != [] && AgreeOn(m, identity, cache.identity.value, texts) {
      assert texts[0] in texts;
    }
  }
  // ---- Runs of overlapping selections

  /** The texts a selection asked to have embedded, and the identity it asked under. */
  datatype Batch = Batch(identity: string, texts: seq<string>)

  /** The cache and the selections that await their batch. */
  datatype State = State(cache: Cache, awaiting: map<nat, Batch>)

  const EMPTY := State(Cache(None, map[]), map[])

  /** A selection reads the identity and what is uncached, and asks; its batch arrives and is
      stored; or the call fails; or the tools change. */
  datatype Event =
    | Begins(call: nat, tools: seq<Tool>, identity: string)
    | Stores(call: nat)
    | Fails(call: nat)
    | ToolsChange

  function Step(s: State, e: Event, m: Model): State {
    match e
    case Begins(call, tools, identity) =>
      var renewed := Renewed(s.cache, identity);
      State(renewed, s.awaiting[call := Batch(identity, UncachedTexts(tools, renewed.vectors))])
    case Stores(call) =>
      if call !in s.awaiting then s
      else State(Stored(s.cache, s.awaiting[call].texts, s.awaiting[call].identity, m), s.awaiting - {call})
    case Fails(call) => s.(awaiting := s.awaiting - {call})
    case ToolsChange => s.(cache := s.cache.(vectors := map[]))
  }

  /** Without anything in between the two steps are one selection. */
  lemma BeginAndStoreIsOneSelection(s: State, call: nat, tools: seq<Tool>, query: string, identity: string, m: Model)
    requires Trim(query) != ""
    ensures Step(Step(s, Begins(call, tools, identity), m), Stores(call), m).cache
         == CacheAfter(s.cache, tools, query, Some(identity), true, m)
  {
  }

  /** And a selection whose batch fails has only renewed the identity. */
  lemma BeginAndFailIsOneSelection(s: State, call: nat, tools: seq<Tool>, query: string, identity: string, m: Model)
    requires Trim(query) != ""
    ensures var after := Step(Step(s, Begins(call, tools, identity), m), Fails(call), m).cache;
            && after == CacheAfter(s.cache, tools, query, Some(identity), false, m) && after.identity == Some(identity)
            && (s.cache.identity.Some? && s.cache.identity != Some(identity) ==> after.vectors == map[])
  {
  }

  /** The cache is true in every state of the run. */
  predicate TrueThroughout(s: State, es: seq<Event>, m: Model)
    decreases |es|
  {
    CacheIsTrue(s.cache, m) && (es == [] || TrueThroughout(Step(s, es[0], m), es[1..], m))
  }

  /** The batch of the event, if it stores one. */
  function BatchOf(s: State, e: Event): Option<Batch> {
    if e.Stores? && e.call in s.awaiting then Some(s.awaiting[e.call]) else None
  }

  /** Each batch is stored under an identity that embeds its texts like the one it was asked under. */
  predicate StoresAgree(s: State, es: seq<Event>, m: Model)
    decreases |es|
  {
    es == []
    || var b := BatchOf(s, es[0]);
       && (b.Some? ==> AgreeOn(m, b.value.identity, s.cache.identity.GetOr(""), b.value.texts))
       && StoresAgree(Step(s, es[0], m), es[1..], m)
  }

  /** Each batch finds its own identity when it is stored, or holds nothing. */
  predicate StoresFindTheirOwn(s: State, es: seq<Event>, m: Model)
    decreases |es|
  {
    es == []
    || var b := BatchOf(s, es[0]);
       && (b.Some? ==> Some(b.value.identity) == s.cache.identity || b.value.texts == [])
       && StoresFindTheirOwn(Step(s, es[0], m), es[1..], m)
  }

  /** Who awaits a batch has named an identity. */
  predicate Named(s: State) {
    s.awaiting != map[] ==> s.cache.identity.Some?
  }

  lemma StepIsTrueIff(s: State, e: Event, m: Model)
    requires Named(s) && CacheIsTrue(s.cache, m)
    ensures Named(Step(s, e, m))
    ensures var b := BatchOf(s, e);
            CacheIsTrue(Step(s, e, m).cache, m)
            <==> b.None? || AgreeOn(m, b.value.identity, s.cache.identity.GetOr(""), b.value.texts)
  {
    if e.Stores? && e.call in s.awaiting {
      LateStoreIsTrueIff(s.cache, s.awaiting[e.call].texts, s.awaiting[e.call].identity, m);
    }
  }

  /** Over every run of overlapping selections: the cache is true throughout exactly when every
      batch is stored where its texts are embedded as it was asked. */
  lemma {:induction false} TrueThroughoutIffStoresAgree(s: State, es: seq<Event>, m: Model)
    requires Named(s) && CacheIsTrue(s.cache, m)
    ensures TrueThroughout(s, es, m) <==> StoresAgree(s, es, m)
    decreases |es|
  {
    if es != [] {
      StepIsTrueIff(s, es[0], m);
      if CacheIsTrue(Step(s, es[0], m).cache, m) {
        TrueThroughoutIffStoresAgree(Step(s, es[0], m), es[1..], m);
      }
    }
  }

  /** No text is embedded alike under two identities. */
  ghost predicate TellsApart(m: Model) {
    forall a, b, text :: m.embed(a, text) == m.embed(b, text) ==> a == b
  }

  /** For models that embed no text alike: exactly when every batch finds its own identity, or
      nothing was uncached. */
  lemma {:induction false} TrueThroughoutIffStoresFindTheirOwn(s: State, es: seq<Event>, m: Model)
    requires Named(s) && CacheIsTrue(s.cache, m) && TellsApart(m)
    ensures TrueThroughout(s, es, m) <==> StoresFindTheirOwn(s, es, m)
    decreases |es|
  {
    if es != [] {
      StepIsTrueIff(s, es[0], m);
      var b := BatchOf(s, es[0]);
      if b.Some? {
        LateStoreNeedsTheSameIdentity(s.cache, b.value.texts, b.value.identity, m);
      }
      if CacheIsTrue(Step(s, es[0], m).cache, m) {
        TrueThroughoutIffStoresFindTheirOwn(Step(s, es[0], m), es[1..], m);
      }
    }
  }

  /** While all selections are under one identity, the cache and every waiting batch are under it. */
  predicate Under(s: State, identity: string) {
    && (s.cache.identity == Some(identity) || s == EMPTY)
    && forall call | call in s.awaiting :: s.awaiting[call].identity == identity
  }

  /** Then no interleaving of selections, failures and changes of the tools makes the cache false. */
  lemma {:induction false} OneIdentityIsSafe(s: State, es: seq<Event>, identity: string, m: Model)
    requires Under(s, identity) && CacheIsTrue(s.cache, m)
    requires forall i | 0 <= i < |es| && es[i].Begins? :: es[i].identity == identity
    ensures TrueThroughout(s, es, m)
    decreases |es|
  {
    if es != [] {
      StepIsTrueIff(s, es[0], m);
      var next := Step(s, es[0], m);
      assert Under(next, identity);
      OneIdentityIsSafe(next, es[1..], identity, m);
    }
  }

  /** One tool that is uncached, and two selections under different models: the first asks, the
      second renews the identity, and the first batch arrives. */
  lemma LateStoreUnderANewModel(tool: Tool, a: string, b: string, m: Model)
    requires m.embed(a, EmbedText(tool)) != m.embed(b, EmbedText(tool))
    ensures var s := Step(Step(EMPTY, Begins(0, [tool], a), m), Begins(1, [tool], b), m);
            && CacheIsTrue(s.cache, m) && s.cache.identity == Some(b)
            && !CacheIsTrue(Step(s, Stores(0), m).cache, m)
  {
    var text := EmbedText(tool);
    var first := Step(EMPTY, Begins(0, [tool], a), m);
    assert [tool][1..] == [] && UncachedTexts([], map[]) == [];
    assert UncachedTexts([tool], map[]) == [text];
    assert first == State(Cache(Some(a), map[]), map[0 := Batch(a, [text])]);
    var s := Step(first, Begins(1, [tool], b), m);
    assert s.cache == Cache(Some(b), map[]) && s.awaiting[0] == Batch(a, [text]);
    LateStoreIsTrueIff(s.cache, [text], a, m);
    assert text in [text];
  }
}
