/** The selection service with its embedding cache (backend/src/agent/tool-selection.service.ts). */
module ToolSelectionService {
  import opened JsText
  import opened Options
  import opened Ranking
  import opened ToolSelection

  datatype Strategy = AlwaysInjectAll | TopKRag | Auto

  class Service {
    const model: Model
    var embedCache: map<string, Vec>
    var embedCacheIdentity: Option<string>

    ghost function State(): Cache
      reads this
    {
      Cache(embedCacheIdentity, embedCache)
    }

    ghost predicate Valid()
      reads this
    {
      CacheIsTrue(State(), model)
    }

    constructor (model: Model)
      ensures Valid() && this.model == model
    {
      this.model := model;
      embedCache, embedCacheIdentity := map[], None;
    }

    method InvalidateEmbeddingCache()
      requires Valid()
      modifies this
      ensures Valid() && embedCache == map[] && embedCacheIdentity == old(embedCacheIdentity)
    {
      embedCache := map[];
    }

    /** `identity` is None when asking the provider for it fails; `answers` says whether the one
        batch call of this selection succeeds. The result is what a service without a cache
        would select. */
    method SelectByRag(tools: seq<Tool>, query: string, topK: int, identity: Option<string>, answers: bool)
        returns (result: seq<Tool>)
      requires Valid()
      modifies this
      ensures Valid() && State() == CacheAfter(old(State()), tools, query, identity, answers, model)
      ensures result == SelectedByRag(tools, query, topK, identity, answers, model)
    {
      if Trim(query) == "" {
        return First(tools, topK);
      }
      if identity.None? {
        return tools;
      }
      DropOtherIdentity(identity.value);
      if !answers {
        return tools;
      }
      var subQueries := SubQueries(query);
      var toolVecs := LoadToolVectors(tools, identity.value);
      result := ClaimAndFill(tools, toolVecs, model.embed(identity.value, query),
                             Embedded(model, identity.value, subQueries), model,
                             EffectiveK(|tools|, topK, |subQueries|));
    }

    method DropOtherIdentity(identity: string)
      requires Valid()
      modifies this
      ensures Valid() && State() == Renewed(old(State()), identity)
    {
      if embedCacheIdentity != Some(identity) {
        if embedCacheIdentity.Some? {
          InvalidateEmbeddingCache();
        }
        embedCacheIdentity := Some(identity);
      }
    }

    /** Embeds what the cache does not hold, then reads every tool's vector from the cache. */
    method LoadToolVectors(tools: seq<Tool>, identity: string) returns (toolVecs: seq<Vec>)
      requires Valid() && embedCacheIdentity == Some(identity)
      modifies this
      ensures Valid() && embedCacheIdentity == Some(identity)
      ensures embedCache == Filled(old(embedCache), UncachedTexts(tools, old(embedCache)),
                                   Embedded(model, identity, UncachedTexts(tools, old(embedCache))))
      ensures toolVecs == Embedded(model, identity, EmbedTexts(tools))
    {
      var uncached := UncachedTexts(tools, embedCache);
      ghost var was := embedCache;
      assert CacheIsTrue(Cache(Some(identity), was), model);
      FillCache(uncached, Embedded(model, identity, uncached));
      FilledIsTrue(was, uncached, model, identity);
      forall i | 0 <= i < |tools|
        ensures EmbedText(tools[i]) in embedCache
      {
        EveryToolIsCached(tools, was, model, identity, i);
      }
      toolVecs := ReadVectors(embedCache, tools);
    }

    method FillCache(texts: seq<string>, vecs: seq<Vec>)
      requires |texts| == |vecs|
      modifies this`embedCache
      ensures embedCache == Filled(old(embedCache), texts, vecs)
    {
      for i := 0 to |texts|
        invariant embedCache == Filled(old(embedCache), texts[..i], vecs[..i])
      {
        assert texts[..i + 1][..i] == texts[..i] && vecs[..i + 1][..i] == vecs[..i];
        embedCache := embedCache[texts[i] := vecs[i]];
      }
      assert texts[..|texts|] == texts && vecs[..|texts|] == vecs;
    }

    method SelectTools(tools: seq<Tool>, query: string, strategy: Strategy, maxTools: int,
                       identity: Option<string>, answers: bool)
        returns (manifests: seq<Tool>, selectedNames: Option<set<string>>)
      requires Valid()
      modifies this
      ensures Valid()
      ensures strategy == AlwaysInjectAll || (strategy == Auto && |tools| <= maxTools) ==>
                manifests == tools && selectedNames == None && State() == old(State())
      ensures strategy == TopKRag || (strategy == Auto && |tools| > maxTools) ==>
                && manifests == SelectedByRag(tools, query, maxTools, identity, answers, model)
                && selectedNames == Some(NameSet(manifests))
    {
      if strategy == AlwaysInjectAll || (strategy == Auto && |tools| <= maxTools) {
        return tools, None;
      }
      manifests := SelectByRag(tools, query, maxTools, identity, answers);
      selectedNames := Some(NameSet(manifests));
    }

    /** The tools a call is given, and those the model is only told about. */
    method ApplyStrategy(allTools: seq<Tool>, userInput: string, strategy: Strategy, maxTools: int,
                         identity: Option<string>, answers: bool)
        returns (manifests: seq<Tool>, excluded: seq<Tool>)
      requires Valid()
      modifies this
      ensures Valid()
      ensures allTools == [] || strategy == AlwaysInjectAll || (strategy == Auto && |allTools| <= maxTools) ==>
                manifests == allTools && excluded == [] && State() == old(State())
      ensures allTools != [] && (strategy == TopKRag || (strategy == Auto && |allTools| > maxTools)) ==>
                && manifests == SelectedByRag(allTools, userInput, maxTools, identity, answers, model)
                && excluded == Unclaimed(allTools, NameSet(manifests))
    {
      if allTools == [] {
        return [], [];
      }
      var selectedNames;
      manifests, selectedNames := SelectTools(allTools, userInput, strategy, maxTools, identity, answers);
      excluded := if selectedNames.Some? then Unclaimed(allTools, selectedNames.value) else [];
    }
  }

  method ReadVectors(vectors: map<string, Vec>, tools: seq<Tool>) returns (vecs: seq<Vec>)
    requires forall i | 0 <= i < |tools| :: EmbedText(tools[i]) in vectors
    ensures |vecs| == |tools| && forall i | 0 <= i < |tools| :: vecs[i] == vectors[EmbedText(tools[i])]
  {
    vecs := [];
    for i := 0 to |tools|
      invariant |vecs| == i && forall j | 0 <= j < i :: vecs[j] == vectors[EmbedText(tools[j])]
    {
      vecs := vecs + [vectors[EmbedText(tools[i])]];
    }
  }

  lemma {:induction false} FilledIsTrue(was: map<string, Vec>, texts: seq<string>, m: Model, identity: string)
    requires forall text | text in was :: was[text] == m.embed(identity, text)
    ensures var filled := Filled(was, texts, Embedded(m, identity, texts));
            forall text | text in filled :: filled[text] == m.embed(identity, text)
  {
    if texts != [] {
      var n := |texts| - 1;
      assert Embedded(m, identity, texts)[..n] == Embedded(m, identity, texts[..n]);
      FilledIsTrue(was, texts[..n], m, identity);
    }
  }

  lemma {:induction false} FilledHas(was: map<string, Vec>, texts: seq<string>, vecs: seq<Vec>, text: string)
    requires |texts| == |vecs| && (text in was || text in texts)
    ensures text in Filled(was, texts, vecs)
  {
    if texts != [] {
      var n := |texts| - 1;
      if text != texts[n] {
        assert text in texts ==> text in texts[..n];
        FilledHas(was, texts[..n], vecs[..n], text);
      }
    }
  }

  lemma {:induction false} UncachedHas(tools: seq<Tool>, vectors: map<string, Vec>, i: nat)
    requires i < |tools|
    ensures EmbedText(tools[i]) in vectors || EmbedText(tools[i]) in UncachedTexts(tools, vectors)
  {
    if i > 0 {
      UncachedHas(tools[1..], vectors, i - 1);
    }
  }

  lemma EveryToolIsCached(tools: seq<Tool>, was: map<string, Vec>, m: Model, identity: string, i: nat)
    requires i < |tools|
    ensures var texts := UncachedTexts(tools, was);
            EmbedText(tools[i]) in Filled(was, texts, Embedded(m, identity, texts))
  {
    var texts := UncachedTexts(tools, was);
    UncachedHas(tools, was, i);
    FilledHas(was, texts, Embedded(m, identity, texts), EmbedText(tools[i]));
  }

  /** Sub-query claims, then the global fill. */
  method ClaimAndFill(tools: seq<Tool>, toolVecs: seq<Vec>, fullQueryVec: Vec, subVecs: seq<Vec>, m: Model, effectiveK: nat)
      returns (selected: seq<Tool>)
    requires |toolVecs| == |tools|
    ensures selected == Picked(tools, toolVecs, fullQueryVec, subVecs, m, effectiveK)
  {
    var claims, claimedNames := ReserveBySubQuery(tools, toolVecs, subVecs, m, effectiveK);
    selected := ToolsAt(tools, claims);
    NamesOfTools(tools, claims);
    var remaining := Unclaimed(tools, claimedNames);
    var ranked := Ranked(remaining, (t: Tool) => GlobalScore(tools, toolVecs, fullQueryVec, m, t));
    selected := selected + First(ranked, effectiveK - |claims|);
  }

  lemma NamesOfTools(tools: seq<Tool>, claims: seq<nat>)
    requires Within(claims, |tools|)
    ensures Names(tools, claims) == NameSet(ToolsAt(tools, claims))
  {
    var picked := ToolsAt(tools, claims);
    assert forall i | 0 <= i < |claims| :: picked[i] in picked && picked[i] == tools[claims[i]];
  }

  method ReserveBySubQuery(tools: seq<Tool>, toolVecs: seq<Vec>, subVecs: seq<Vec>, m: Model, effectiveK: nat)
      returns (claims: seq<nat>, claimedNames: set<string>)
    requires |toolVecs| == |tools|
    ensures claims == Claims(tools, toolVecs, subVecs, m, effectiveK, |subVecs|)
    ensures claimedNames == Names(tools, claims)
  {
    claims, claimedNames := [], {};
    var si := 0;
    while si < |subVecs| && |claims| < effectiveK
      invariant 0 <= si <= |subVecs|
      invariant claims == Claims(tools, toolVecs, subVecs, m, effectiveK, si)
      invariant claimedNames == Names(tools, claims)
    {
      var best := FindBest(tools, toolVecs, subVecs[si], claimedNames, m);
      if best.Some? {
        NamesGrow(tools, claims, best.value);
        claims, claimedNames := claims + [best.value], claimedNames + {tools[best.value].name};
      }
      si := si + 1;
    }
    FullClaimsStay(tools, toolVecs, subVecs, m, effectiveK, si, |subVecs|);
  }

  lemma NamesGrow(tools: seq<Tool>, claims: seq<nat>, i: nat)
    requires Within(claims, |tools|) && i < |tools|
    ensures Names(tools, claims + [i]) == Names(tools, claims) + {tools[i].name}
  {
    var more := claims + [i];
    assert more[|claims|] == i;
    assert forall j | 0 <= j < |claims| :: more[j] == claims[j];
  }

  lemma {:induction false} FullClaimsStay(tools: seq<Tool>, vecs: seq<Vec>, subs: seq<Vec>, m: Model, k: nat, n: nat, total: nat)
    requires n <= total <= |subs| && |vecs| == |tools|
    requires n == total || |Claims(tools, vecs, subs, m, k, n)| >= k
    ensures Claims(tools, vecs, subs, m, k, total) == Claims(tools, vecs, subs, m, k, n)
    decreases total
  {
    if n < total {
      FullClaimsStay(tools, vecs, subs, m, k, n, total - 1);
    }
  }

  method FindBest(tools: seq<Tool>, toolVecs: seq<Vec>, sqVec: Vec, claimedNames: set<string>, m: Model)
      returns (best: Option<nat>)
    requires |toolVecs| == |tools|
    ensures best == Best(tools, toolVecs, sqVec, claimedNames, m, |tools|)
  {
    best := None;
    var bestScore := 0.0;
    for i := 0 to |tools|
      invariant best == Best(tools, toolVecs, sqVec, claimedNames, m, i)
      invariant best.Some? ==> bestScore == m.sim(sqVec, toolVecs[best.value])
    {
      if tools[i].name in claimedNames {
        continue;
      }
      var score := m.sim(sqVec, toolVecs[i]);
      if best.None? || score > bestScore {
        bestScore, best := score, Some(i);
      }
    }
  }
}
