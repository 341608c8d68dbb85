/** Which tools a model call is given (backend/src/agent/tool-selection.service.ts). */
module ToolSelection {
  import opened JsText
  import opened Options
  import opened Ranking

  type Vec = seq<real>

  datatype Tool = Tool(name: string, description: string, fields: string)

  /** The embedding provider's answer for one text under one model identity, and how alike two
      vectors are. */
  datatype Model = Model(embed: (string, string) -> Vec, sim: (Vec, Vec) -> real)

  function EmbedText(t: Tool): string {
    t.name + ": " + t.description + if t.fields == "" then "" else ". Fields: " + t.fields
  }

  predicate Separates(q: string, i: nat)
    requires i < |q|
  {
    || q[i] == ',' || q[i] == ';' || q[i] == ':'
    || (q[i] == '.' && (i == 0 || !IsDigit(q[i - 1])) && (i + 1 == |q| || !IsDigit(q[i + 1])))
  }

  /** The pieces of q[from..], the first of which started at `start`. */
  function Pieces(q: string, start: nat, from: nat): seq<string>
    requires start <= from <= |q|
    decreases |q| - from
  {
    if from == |q| then [q[start..]]
    else if Separates(q, from) then [q[start..from]] + Pieces(q, from + 1, from + 1)
    else Pieces(q, start, from + 1)
  }

  function LongEnough(pieces: seq<string>): seq<string> {
    if pieces == [] then []
    else (if |Trim(pieces[0])| >= 6 then [Trim(pieces[0])] else []) + LongEnough(pieces[1..])
  }

  function SubQueries(query: string): seq<string> {
    LongEnough(Pieces(query, 0, 0))
  }

  function Max(a: int, b: int): int {
    if a >= b then a else b
  }

  /** How many tools are selected out of n for s sub-queries. */
  function EffectiveK(n: nat, topK: int, s: nat): (k: nat) {
    var wanted := Max(topK, s + Max(3, s));
    if wanted < n then wanted else n
  }

  /** The first of the best-scoring unclaimed tools among the first n. */
  function Best(tools: seq<Tool>, vecs: seq<Vec>, q: Vec, claimed: set<string>, m: Model, n: nat): (best: Option<nat>)
    requires n <= |tools| == |vecs|
    ensures best.Some? ==> best.value < n && tools[best.value].name !in claimed
  {
    if n == 0 then None
    else
      var best := Best(tools, vecs, q, claimed, m, n - 1);
      if tools[n - 1].name in claimed then best
      else if best.None? || m.sim(q, vecs[n - 1]) > m.sim(q, vecs[best.value]) then Some(n - 1)
      else best
  }

  predicate Within(indexes: seq<nat>, n: nat) {
    forall i | 0 <= i < |indexes| :: indexes[i] < n
  }

  function Names(tools: seq<Tool>, indexes: seq<nat>): set<string>
    requires Within(indexes, |tools|)
  {
    set i | 0 <= i < |indexes| :: tools[indexes[i]].name
  }

  /** What the first n sub-queries reserve, as positions, when k tools may be selected. */
  function Claims(tools: seq<Tool>, vecs: seq<Vec>, subs: seq<Vec>, m: Model, k: nat, n: nat): (claims: seq<nat>)
    requires n <= |subs| && |vecs| == |tools|
    ensures Within(claims, |tools|) && |claims| <= n
  {
    if n == 0 then []
    else
      var claims := Claims(tools, vecs, subs, m, k, n - 1);
      if |claims| >= k then claims
      else
        var best := Best(tools, vecs, subs[n - 1], Names(tools, claims), m, |tools|);
        if best.None? then claims else claims + [best.value]
  }

  function ToolsAt(tools: seq<Tool>, indexes: seq<nat>): (picked: seq<Tool>)
    requires Within(indexes, |tools|)
    ensures |picked| == |indexes| && forall i | 0 <= i < |picked| :: picked[i] == tools[indexes[i]]
  {
    seq(|indexes|, i requires 0 <= i < |indexes| => tools[indexes[i]])
  }

  function Unclaimed(tools: seq<Tool>, claimed: set<string>): seq<Tool> {
    if tools == [] then []
    else (if tools[0].name in claimed then [] else [tools[0]]) + Unclaimed(tools[1..], claimed)
  }

  /** `toolIndexMap`: the last tool with the name, or |tools|. */
  function IndexByName(tools: seq<Tool>, name: string): (at: nat)
    ensures at <= |tools|
  {
    if tools == [] then 0
    else
      var n := |tools| - 1;
      if tools[n].name == name then n
      else
        var at := IndexByName(tools[..n], name);
        if at < n then at else |tools|
  }

  /** Similarity to the whole query, looked up by the tool's name. */
  function GlobalScore(tools: seq<Tool>, vecs: seq<Vec>, q: Vec, m: Model, t: Tool): real
    requires |vecs| == |tools|
  {
    var at := IndexByName(tools, t.name);
    if at == |tools| then 0.0 else m.sim(q, vecs[at])
  }

  /** What the sub-queries reserve. */
  function Reserved(tools: seq<Tool>, vecs: seq<Vec>, subs: seq<Vec>, m: Model, k: nat): seq<Tool>
    requires |vecs| == |tools|
  {
    ToolsAt(tools, Claims(tools, vecs, subs, m, k, |subs|))
  }

  /** The best n for the whole query among the tools whose names are not reserved. */
  function Added(tools: seq<Tool>, vecs: seq<Vec>, q: Vec, m: Model, reserved: set<string>, n: int): seq<Tool>
    requires |vecs| == |tools|
  {
    First(Ranked(Unclaimed(tools, reserved), (t: Tool) => GlobalScore(tools, vecs, q, m, t)), n)
  }

  /** Each sub-query reserves its best tool; the rest is filled by the whole query. */
  function Picked(tools: seq<Tool>, vecs: seq<Vec>, q: Vec, subs: seq<Vec>, m: Model, k: nat): seq<Tool>
    requires |vecs| == |tools|
  {
    var reserved := Reserved(tools, vecs, subs, m, k);
    reserved + Added(tools, vecs, q, m, NameSet(reserved), k - |reserved|)
  }

  function NameSet(tools: seq<Tool>): set<string> {
    set t | t in tools :: t.name
  }

  function Embedded(m: Model, identity: string, texts: seq<string>): (vecs: seq<Vec>)
    ensures |vecs| == |texts| && forall i | 0 <= i < |vecs| :: vecs[i] == m.embed(identity, texts[i])
  {
    seq(|texts|, i requires 0 <= i < |texts| => m.embed(identity, texts[i]))
  }

  function EmbedTexts(tools: seq<Tool>): (texts: seq<string>)
    ensures |texts| == |tools| && forall i | 0 <= i < |texts| :: texts[i] == EmbedText(tools[i])
  {
    seq(|tools|, i requires 0 <= i < |tools| => EmbedText(tools[i]))
  }

  /** The selection that embeds everything anew. `identity` is None when asking for it fails,
      and `answers` says whether the batch call succeeds. */
  function SelectedByRag(tools: seq<Tool>, query: string, topK: int, identity: Option<string>, answers: bool, m: Model):
      seq<Tool>
  {
    if Trim(query) == "" then First(tools, topK)
    else if identity.None? || !answers then tools
    else
      var subs := SubQueries(query);
      Picked(tools, Embedded(m, identity.value, EmbedTexts(tools)), m.embed(identity.value, query),
             Embedded(m, identity.value, subs), m, EffectiveK(|tools|, topK, |subs|))
  }

  datatype Cache = Cache(identity: Option<string>, vectors: map<string, Vec>)

  function Filled(vectors: map<string, Vec>, texts: seq<string>, vecs: seq<Vec>): map<string, Vec>
    requires |texts| == |vecs|
  {
    if texts == [] then vectors
    else
      var n := |texts| - 1;
      Filled(vectors, texts[..n], vecs[..n])[texts[n] := vecs[n]]
  }

  function UncachedTexts(tools: seq<Tool>, vectors: map<string, Vec>): seq<string> {
    if tools == [] then []
    else (if EmbedText(tools[0]) in vectors then [] else [EmbedText(tools[0])]) + UncachedTexts(tools[1..], vectors)
  }

  /** The cache once the identity is known. */
  function Renewed(cache: Cache, identity: string): Cache {
    if cache.identity == Some(identity) then cache
    else Cache(Some(identity), if cache.identity.Some? then map[] else cache.vectors)
  }

  /** The cache once the batch for `texts`, asked for under `identity`, has been stored. */
  function Stored(cache: Cache, texts: seq<string>, identity: string, m: Model): Cache {
    cache.(vectors := Filled(cache.vectors, texts, Embedded(m, identity, texts)))
  }

  function CacheAfter(cache: Cache, tools: seq<Tool>, query: string, identity: Option<string>, answers: bool, m: Model): Cache {
    if Trim(query) == "" || identity.None? then cache
    else
      var renewed := Renewed(cache, identity.value);
      if !answers then renewed
      else
        Stored(renewed, UncachedTexts(tools, renewed.vectors), identity.value, m)
  }

  /** Every cached vector is the current identity's embedding of its text. */
  predicate CacheIsTrue(cache: Cache, m: Model) {
    && (cache.identity.None? ==> cache.vectors == map[])
    && forall text | text in cache.vectors :: cache.vectors[text] == m.embed(cache.identity.GetOr(""), text)
  }
}
