/** What a selection guarantees, for tools with distinct names. */
module ToolSelectionGuarantees {
  import opened Collections
  import opened JsText
  import opened Options
  import opened Ranking
  import opened ToolSelection
  import Service = ToolSelectionService

  /** The pieces with the separators of q between them, from position `at` on. */
  function Rejoined(q: string, pieces: seq<string>, at: nat): string
    requires pieces != []
    decreases |pieces|
  {
    var end := at + |pieces[0]|;
    if |pieces| == 1 || end >= |q| then pieces[0] else pieces[0] + [q[end]] + Rejoined(q, pieces[1..], end + 1)
  }

  /** A comma, a semicolon, a colon, or a period that has no digit before and none after it. */
  predicate IsSeparator(q: string, i: nat)
    requires i < |q|
  {
    q[i] in ",;:"
    || (q[i] == '.' && !(i > 0 && '0' <= q[i - 1] <= '9') && !(i + 1 < |q| && '0' <= q[i + 1] <= '9'))
  }

  lemma SeparatorsSeparate(q: string, i: nat)
    requires i < |q|
    ensures Separates(q, i) <==> IsSeparator(q, i)
  {
  }

  /** Each piece ends at the first separator after its start. */
  predicate CutAtSeparators(q: string, pieces: seq<string>, at: nat)
    decreases |pieces|
  {
    pieces != [] && at + |pieces[0]| <= |q|
    && (forall i | at <= i < at + |pieces[0]| :: !IsSeparator(q, i))
    && (|pieces| > 1 ==> at + |pieces[0]| < |q| && IsSeparator(q, at + |pieces[0]|)
                         && CutAtSeparators(q, pieces[1..], at + |pieces[0]| + 1))
  }

  lemma CutHead(q: string, piece: string, rest: seq<string>, at: nat)
    requires at + |piece| < |q| && IsSeparator(q, at + |piece|) && forall i | at <= i < at + |piece| :: !IsSeparator(q, i)
    requires CutAtSeparators(q, rest, at + |piece| + 1)
    ensures CutAtSeparators(q, [piece] + rest, at)
    ensures Rejoined(q, [piece] + rest, at) == piece + [q[at + |piece|]] + Rejoined(q, rest, at + |piece| + 1)
  {
    assert ([piece] + rest)[1..] == rest;
  }

  /** The query is cut at its separators and nowhere else, and nothing of it is lost. */
  lemma {:induction false} QueryIsCutAtSeparators(q: string, start: nat, from: nat)
    requires start <= from <= |q| && forall i | start <= i < from :: !IsSeparator(q, i)
    ensures CutAtSeparators(q, Pieces(q, start, from), start)
    ensures Rejoined(q, Pieces(q, start, from), start) == q[start..]
    decreases |q| - from
  {
    if from < |q| {
      SeparatorsSeparate(q, from);
      if IsSeparator(q, from) {
        QueryIsCutAtSeparators(q, from + 1, from + 1);
        CutHead(q, q[start..from], Pieces(q, from + 1, from + 1), start);
        Reassembled(q, start, from);
      } else {
        QueryIsCutAtSeparators(q, start, from + 1);
      }
    }
  }

  lemma Reassembled(q: string, start: nat, from: nat)
    requires start <= from < |q|
    ensures q[start..from] + [q[from]] + q[from + 1..] == q[start..]
  {
  }

  /** Sub-queries are trimmed pieces of at least six characters. */
  lemma {:induction false} SubQueriesAreLongEnough(pieces: seq<string>)
    ensures forall s | s in LongEnough(pieces) :: |s| >= 6 && Trimmed(s) && exists p | p in pieces :: s == Trim(p)
  {
    if pieces != [] {
      SubQueriesAreLongEnough(pieces[1..]);
      assert pieces[0] in pieces && forall p | p in pieces[1..] :: p in pieces;
    }
  }

  lemma {:induction false} LongEnoughConcat(a: seq<string>, b: seq<string>)
    ensures LongEnough(a + b) == LongEnough(a) + LongEnough(b)
  {
    if a == [] {
      assert a + b == b;
    } else {
      assert (a + b)[1..] == a[1..] + b;
      LongEnoughConcat(a[1..], b);
    }
  }

  lemma LongEnoughOfOne(piece: string)
    ensures LongEnough([piece]) == if |Trim(piece)| >= 6 then [Trim(piece)] else []
  {
    assert [piece][1..] == [];
  }

  /** How many of the pieces are long enough. */
  function LongCount(pieces: seq<string>): nat {
    if pieces == [] then 0 else LongCount(pieces[..|pieces| - 1]) + if |Trim(pieces[|pieces| - 1])| >= 6 then 1 else 0
  }

  /** Every piece of at least six characters is a sub-query, behind those of the pieces before it. */
  lemma {:induction false} LongPiecesAreSubQueries(pieces: seq<string>, i: nat)
    requires i <= |pieces|
    ensures |LongEnough(pieces)| == LongCount(pieces) && LongCount(pieces[..i]) <= LongCount(pieces)
    ensures i < |pieces| && |Trim(pieces[i])| >= 6 ==>
              LongCount(pieces[..i]) < LongCount(pieces) && LongEnough(pieces)[LongCount(pieces[..i])] == Trim(pieces[i])
    decreases |pieces|
  {
    if pieces == [] {
      return;
    }
    var n := |pieces| - 1;
    var before := pieces[..n];
    assert pieces == before + [pieces[n]];
    LongEnoughConcat(before, [pieces[n]]);
    LongEnoughOfOne(pieces[n]);
    LongPiecesAreSubQueries(before, if i < n then i else n);
    if i < n {
      assert before[..i] == pieces[..i];
    } else if i == n {
      assert before[..n] == before;
    } else {
      assert pieces[..i] == pieces;
    }
  }

  predicate DistinctNames(tools: seq<Tool>) {
    forall i, j | 0 <= i < j < |tools| :: tools[i].name != tools[j].name
  }

  predicate DistinctIndexes(s: seq<nat>) {
    forall i, j | 0 <= i < j < |s| :: s[i] != s[j]
  }

  lemma {:induction false} Range(n: nat) returns (all: set<nat>)
    ensures |all| == n && forall i: nat :: i in all <==> i < n
  {
    if n == 0 {
      all := {};
    } else {
      all := Range(n - 1);
      all := all + {n - 1};
    }
  }

  lemma {:induction false} IndexSet(s: seq<nat>) returns (all: set<nat>)
    requires DistinctIndexes(s)
    ensures |all| == |s| && forall i: nat :: i in all <==> i in s
  {
    if s == [] {
      all := {};
    } else {
      var rest := s[1..];
      assert forall i | 0 <= i < |rest| :: rest[i] == s[i + 1];
      all := IndexSet(rest);
      assert s[0] !in rest && forall i: nat :: i in s <==> i == s[0] || i in rest;
      all := all + {s[0]};
    }
  }

  /** While fewer tools are claimed than there are, one is free. */
  lemma SomeToolIsFree(claims: seq<nat>, n: nat) returns (free: nat)
    requires DistinctIndexes(claims) && Within(claims, n) && |claims| < n
    ensures free < n && free !in claims
  {
    var all := Range(n);
    var taken := IndexSet(claims);
    assert all <= taken ==> taken == all + (taken - all);
    free :| free in all && free !in taken;
  }

  lemma NameIsClaimedIff(tools: seq<Tool>, claims: seq<nat>, i: nat)
    requires DistinctNames(tools) && Within(claims, |tools|) && i < |tools|
    ensures tools[i].name in Names(tools, claims) <==> i in claims
  {
    if i in claims {
      var j :| 0 <= j < |claims| && claims[j] == i;
      assert tools[claims[j]].name in Names(tools, claims);
    }
  }

  /** The scan finds a best unclaimed tool, the first of equals. */
  lemma {:induction false} BestIsBest(tools: seq<Tool>, vecs: seq<Vec>, q: Vec, claimed: set<string>, m: Model, n: nat, i: nat)
    requires i < n <= |tools| && |vecs| == |tools| && tools[i].name !in claimed
    ensures var best := Best(tools, vecs, q, claimed, m, n);
            && best.Some? && m.sim(q, vecs[i]) <= m.sim(q, vecs[best.value])
            && (i < best.value ==> m.sim(q, vecs[i]) < m.sim(q, vecs[best.value]))
  {
    if i < n - 1 {
      BestIsBest(tools, vecs, q, claimed, m, n - 1, i);
    } else {
      var best := Best(tools, vecs, q, claimed, m, n - 1);
    }
  }

  /** Every sub-query claims a tool of its own as long as any may be selected. */
  lemma {:induction false} EverySubQueryClaims(tools: seq<Tool>, vecs: seq<Vec>, subs: seq<Vec>, m: Model, k: nat, n: nat)
    requires DistinctNames(tools) && |vecs| == |tools| && n <= |subs| && k <= |tools|
    ensures DistinctIndexes(Claims(tools, vecs, subs, m, k, n))
    ensures |Claims(tools, vecs, subs, m, k, n)| == Least(n, k)
  {
    if n > 0 {
      EverySubQueryClaims(tools, vecs, subs, m, k, n - 1);
      var claims := Claims(tools, vecs, subs, m, k, n - 1);
      if |claims| < k {
        var free := SomeToolIsFree(claims, |tools|);
        NameIsClaimedIff(tools, claims, free);
        BestIsBest(tools, vecs, subs[n - 1], Names(tools, claims), m, |tools|, free);
        var best := Best(tools, vecs, subs[n - 1], Names(tools, claims), m, |tools|).value;
        NameIsClaimedIff(tools, claims, best);
      }
    }
  }

  lemma {:induction false} ClaimsExtend(tools: seq<Tool>, vecs: seq<Vec>, subs: seq<Vec>, m: Model, k: nat, j: nat, n: nat)
    requires |vecs| == |tools| && j <= n <= |subs|
    ensures Claims(tools, vecs, subs, m, k, j) <= Claims(tools, vecs, subs, m, k, n)
    decreases n
  {
    if j < n {
      ClaimsExtend(tools, vecs, subs, m, k, j, n - 1);
    }
  }

  /** The j-th sub-query's claim is a best tool among those not claimed before it. */
  lemma ClaimIsBestOfTheRest(tools: seq<Tool>, vecs: seq<Vec>, subs: seq<Vec>, m: Model, k: nat, j: nat, i: nat)
    requires DistinctNames(tools) && |vecs| == |tools| && k <= |tools|
    requires j < |subs| && j < k && i < |tools|
    ensures var claims := Claims(tools, vecs, subs, m, k, |subs|);
            j < |claims| && (i !in claims[..j] ==> m.sim(subs[j], vecs[i]) <= m.sim(subs[j], vecs[claims[j]]))
  {
    var claims := Claims(tools, vecs, subs, m, k, |subs|);
    var before, now := Claims(tools, vecs, subs, m, k, j), Claims(tools, vecs, subs, m, k, j + 1);
    EverySubQueryClaims(tools, vecs, subs, m, k, j);
    EverySubQueryClaims(tools, vecs, subs, m, k, j + 1);
    ClaimsExtend(tools, vecs, subs, m, k, j + 1, |subs|);
    assert claims[..j] == before && claims[j] == now[j];
    if i !in before {
      NameIsClaimedIff(tools, before, i);
      BestIsBest(tools, vecs, subs[j], Names(tools, before), m, |tools|, i);
    }
  }

  lemma {:induction false} UnclaimedIsTheRest(tools: seq<Tool>, claimed: set<string>)
    requires DistinctNames(tools)
    ensures DistinctNames(Unclaimed(tools, claimed))
    ensures forall t :: t in Unclaimed(tools, claimed) <==> t in tools && t.name !in claimed
  {
    if tools != [] {
      var rest := tools[1..];
      assert forall i | 0 <= i < |rest| :: rest[i] == tools[i + 1];
      UnclaimedIsTheRest(rest, claimed);
      var u := Unclaimed(rest, claimed);
      assert tools == [tools[0]] + rest;
      forall i | 0 <= i < |u|
        ensures u[i].name != tools[0].name
      {
        assert u[i] in rest;
      }
    }
  }

  lemma {:induction false} NamesCount(tools: seq<Tool>)
    requires DistinctNames(tools)
    ensures |NameSet(tools)| == |tools|
  {
    if tools != [] {
      var rest := tools[1..];
      assert forall i | 0 <= i < |rest| :: rest[i] == tools[i + 1];
      NamesCount(rest);
      assert NameSet(tools) == NameSet(rest) + {tools[0].name};
      assert tools[0].name !in NameSet(rest);
    }
  }

  /** Setting aside some of the tools' names leaves the others. */
  lemma UnclaimedCount(tools: seq<Tool>, claimed: set<string>)
    requires DistinctNames(tools) && claimed <= NameSet(tools)
    ensures |Unclaimed(tools, claimed)| == |tools| - |claimed|
  {
    var rest := Unclaimed(tools, claimed);
    UnclaimedIsTheRest(tools, claimed);
    NamesCount(tools);
    NamesCount(rest);
    assert NameSet(rest) == NameSet(tools) - claimed;
    assert NameSet(tools) == claimed + NameSet(rest);
  }

  lemma NamesAreClaimed(tools: seq<Tool>, claims: seq<nat>)
    requires DistinctNames(tools) && Within(claims, |tools|) && DistinctIndexes(claims)
    ensures DistinctNames(ToolsAt(tools, claims))
    ensures Names(tools, claims) == NameSet(ToolsAt(tools, claims)) <= NameSet(tools)
    ensures |Names(tools, claims)| == |claims|
  {
    var picked := ToolsAt(tools, claims);
    forall i, j | 0 <= i < j < |picked|
      ensures picked[i].name != picked[j].name
    {
      assert claims[i] < claims[j] || claims[j] < claims[i];
    }
    NamesCount(picked);
    assert forall i | 0 <= i < |claims| :: picked[i] in picked && tools[claims[i]] in tools;
  }

  /** The sub-queries' own tools: one each, different ones. */
  lemma ReservedAreDistinct(tools: seq<Tool>, vecs: seq<Vec>, subs: seq<Vec>, m: Model, k: nat)
    requires DistinctNames(tools) && |vecs| == |tools| && k <= |tools|
    ensures var reserved := Reserved(tools, vecs, subs, m, k);
            && |reserved| == Least(|subs|, k) && DistinctNames(reserved)
            && |NameSet(reserved)| == |reserved| && NameSet(reserved) <= NameSet(tools)
            && forall t | t in reserved :: t in tools
  {
    var claims := Claims(tools, vecs, subs, m, k, |subs|);
    EverySubQueryClaims(tools, vecs, subs, m, k, |subs|);
    NamesAreClaimed(tools, claims);
  }

  /** The tools the whole query adds: as many as asked for, none of them reserved. */
  lemma AddedAreDistinct(tools: seq<Tool>, vecs: seq<Vec>, q: Vec, m: Model, reserved: set<string>, n: nat)
    requires DistinctNames(tools) && |vecs| == |tools| && reserved <= NameSet(tools) && |reserved| + n <= |tools|
    ensures var added := Added(tools, vecs, q, m, reserved, n);
            && |added| == n && DistinctNames(added)
            && forall t | t in added :: t in tools && t.name !in reserved
  {
    UnclaimedCount(tools, reserved);
    UnclaimedIsTheRest(tools, reserved);
    AddedAreRanked(Unclaimed(tools, reserved), (t: Tool) => GlobalScore(tools, vecs, q, m, t), n);
  }

  /** No tool left out is more like the whole query than one the whole query added. */
  lemma AddedBeatTheLeftOut(tools: seq<Tool>, vecs: seq<Vec>, q: Vec, m: Model, reserved: seq<Tool>, n: nat, t: Tool, u: Tool)
    requires DistinctNames(tools) && |vecs| == |tools| && forall r | r in reserved :: r in tools
    requires t in Added(tools, vecs, q, m, NameSet(reserved), n)
    requires u in tools && u !in reserved && u !in Added(tools, vecs, q, m, NameSet(reserved), n)
    ensures GlobalScore(tools, vecs, q, m, t) >= GlobalScore(tools, vecs, q, m, u)
  {
    NamesTellApart(tools, reserved, u);
    UnclaimedIsTheRest(tools, NameSet(reserved));
    FirstBeatsTheRest(Unclaimed(tools, NameSet(reserved)), (x: Tool) => GlobalScore(tools, vecs, q, m, x), n, t, u);
  }

  lemma NamesTellApart(tools: seq<Tool>, claimed: seq<Tool>, u: Tool)
    requires DistinctNames(tools) && (forall t | t in claimed :: t in tools) && u in tools && u !in claimed
    ensures u.name !in NameSet(claimed)
  {
  }

  lemma AddedAreRanked(rest: seq<Tool>, score: Tool -> real, k: nat)
    requires DistinctNames(rest) && k <= |rest|
    ensures var added := First(Ranked(rest, score), k);
            |added| == k && DistinctNames(added) && forall t | t in added :: t in rest
  {
    RankedKeepsDistinct(rest, score, (t: Tool) => t.name);
    var ranked := Ranked(rest, score);
    forall t | t in First(ranked, k)
      ensures t in rest
    {
      assert t in ranked;
      RankedHasTheSame(rest, score, t);
    }
  }

  lemma {:induction false} IndexByNameIsTheIndex(tools: seq<Tool>, i: nat)
    requires DistinctNames(tools) && i < |tools|
    ensures IndexByName(tools, tools[i].name) == i
  {
    var n := |tools| - 1;
    if i < n {
      assert tools[..n][i] == tools[i];
      IndexByNameIsTheIndex(tools[..n], i);
    }
  }

  /** How alike a text and a tool are under the identity: the tool as its name, its description
      and, where it has any, its fields. */
  function Likeness(m: Model, identity: string, text: string, t: Tool): real {
    var told := t.name + ": " + t.description;
    m.sim(m.embed(identity, text), m.embed(identity, if t.fields == "" then told else told + (". Fields: " + t.fields)))
  }

  lemma LikenessIs(m: Model, identity: string, text: string, t: Tool)
    ensures Likeness(m, identity, text, t) == m.sim(m.embed(identity, text), m.embed(identity, EmbedText(t)))
  {
    var told := t.name + ": " + t.description;
    assert told + "" == told;
  }

  lemma GlobalScoreIsLikeness(tools: seq<Tool>, m: Model, identity: string, query: string, t: Tool)
    requires DistinctNames(tools) && t in tools
    ensures GlobalScore(tools, Embedded(m, identity, EmbedTexts(tools)), m.embed(identity, query), m, t)
         == Likeness(m, identity, query, t)
  {
    var i :| 0 <= i < |tools| && tools[i] == t;
    IndexByNameIsTheIndex(tools, i);
    LikenessIs(m, identity, query, t);
  }

  lemma PickedSize(tools: seq<Tool>, vecs: seq<Vec>, q: Vec, subs: seq<Vec>, m: Model, k: nat)
    requires DistinctNames(tools) && |vecs| == |tools| && k <= |tools|
    ensures var picked := Picked(tools, vecs, q, subs, m, k);
            |picked| == k && DistinctNames(picked) && forall t | t in picked :: t in tools
  {
    var reserved := Reserved(tools, vecs, subs, m, k);
    ReservedAreDistinct(tools, vecs, subs, m, k);
    AddedAreDistinct(tools, vecs, q, m, NameSet(reserved), k - |reserved|);
    DistinctConcat(reserved, Added(tools, vecs, q, m, NameSet(reserved), k - |reserved|));
  }

  lemma PickedBeatTheLeftOut(tools: seq<Tool>, vecs: seq<Vec>, q: Vec, subs: seq<Vec>, m: Model, k: nat, j: nat, u: Tool)
    requires DistinctNames(tools) && |vecs| == |tools| && k <= |tools|
    requires u in tools && u !in Picked(tools, vecs, q, subs, m, k)
    requires |subs| <= j < |Picked(tools, vecs, q, subs, m, k)|
    ensures var t := Picked(tools, vecs, q, subs, m, k)[j];
            t in tools && GlobalScore(tools, vecs, q, m, t) >= GlobalScore(tools, vecs, q, m, u)
  {
    var reserved := Reserved(tools, vecs, subs, m, k);
    var n := k - |reserved|;
    ReservedAreDistinct(tools, vecs, subs, m, k);
    AddedAreDistinct(tools, vecs, q, m, NameSet(reserved), n);
    var added := Added(tools, vecs, q, m, NameSet(reserved), n);
    InSecondPart(reserved, added, j, u);
    AddedBeatTheLeftOut(tools, vecs, q, m, reserved, n, added[j - |reserved|], u);
  }

  lemma InSecondPart(a: seq<Tool>, b: seq<Tool>, j: nat, u: Tool)
    requires |a| <= j < |a + b| && u !in a + b
    ensures u !in a && u !in b && (a + b)[j] == b[j - |a|] && b[j - |a|] in b
  {
    assert u in a || u in b ==> u in a + b;
  }

  /** The number of tools of a selection by similarity, all of them given tools, none twice. */
  lemma SelectionSize(tools: seq<Tool>, query: string, topK: int, identity: string, m: Model)
    requires DistinctNames(tools) && Trim(query) != ""
    ensures var selected, s := SelectedByRag(tools, query, topK, Some(identity), true, m), |SubQueries(query)|;
            var least := if s > 3 then s + s else s + 3;
            var wanted := if topK > least then topK else least;
            && |selected| == (if |tools| < wanted then |tools| else wanted)
            && DistinctNames(selected) && forall t | t in selected :: t in tools
  {
    var subs := SubQueries(query);
    PickedSize(tools, Embedded(m, identity, EmbedTexts(tools)), m.embed(identity, query),
               Embedded(m, identity, subs), m, EffectiveK(|tools|, topK, |subs|));
  }

  /** No query, no choice: the first tools. And a selection that cannot ask for the identity, or
      whose batch fails, gives every tool. */
  lemma WithoutAnswerNothingIsLeftOut(tools: seq<Tool>, query: string, topK: int, identity: Option<string>, answers: bool, m: Model)
    ensures Blank(query) && topK >= 0 ==>
              SelectedByRag(tools, query, topK, identity, answers, m) == tools[..if topK < |tools| then topK else |tools|]
    ensures Blank(query) && topK < 0 ==>
              SelectedByRag(tools, query, topK, identity, answers, m) == tools[..if |tools| + topK > 0 then |tools| + topK else 0]
    ensures !Blank(query) && (identity == None || !answers) ==>
              SelectedByRag(tools, query, topK, identity, answers, m) == tools
  {
    TrimIsEmptyIffBlank(query);
    assert tools[..|tools|] == tools;
  }

  lemma DistinctConcat(a: seq<Tool>, b: seq<Tool>)
    requires DistinctNames(a) && DistinctNames(b) && forall t | t in b :: t.name !in NameSet(a)
    ensures DistinctNames(a + b)
  {
    assert forall i | 0 <= i < |a| :: a[i] in a && a[i].name in NameSet(a);
    assert forall j | 0 <= j < |b| :: b[j] in b;
  }

  /** Min(s, n) sub-queries each get a tool: the most like them of those not given before. */
  lemma SubQueriesGetTheirBest(tools: seq<Tool>, query: string, topK: int, identity: string, m: Model, j: nat, t: Tool)
    requires DistinctNames(tools) && Trim(query) != "" && t in tools
    requires j < |SubQueries(query)| && j < |tools|
    ensures var selected, sub := SelectedByRag(tools, query, topK, Some(identity), true, m), SubQueries(query)[j];
            && j < |selected|
            && (t !in selected[..j] ==> Likeness(m, identity, sub, t) <= Likeness(m, identity, sub, selected[j]))
  {
    var subs := SubQueries(query);
    var vecs, k := Embedded(m, identity, EmbedTexts(tools)), EffectiveK(|tools|, topK, |subs|);
    var subVecs := Embedded(m, identity, subs);
    var claims := Claims(tools, vecs, subVecs, m, k, |subs|);
    var selected := SelectedByRag(tools, query, topK, Some(identity), true, m);
    var i :| 0 <= i < |tools| && tools[i] == t;
    ClaimIsBestOfTheRest(tools, vecs, subVecs, m, k, j, i);
    LikenessIs(m, identity, subs[j], t);
    LikenessIs(m, identity, subs[j], tools[claims[j]]);
    assert selected[..j] == ToolsAt(tools, claims)[..j] && selected[j] == tools[claims[j]];
    if i in claims[..j] {
      var c :| 0 <= c < j && claims[c] == i;
      assert selected[..j][c] == t;
    }
  }

  /** After the sub-queries' tools, nothing left out is more like the whole query. */
  lemma TheRestIsTheBestForTheQuery(tools: seq<Tool>, query: string, topK: int, identity: string, m: Model, j: nat, u: Tool)
    requires DistinctNames(tools) && Trim(query) != "" && u in tools
    requires u !in SelectedByRag(tools, query, topK, Some(identity), true, m)
    requires |SubQueries(query)| <= j < |SelectedByRag(tools, query, topK, Some(identity), true, m)|
    ensures Likeness(m, identity, query, u)
         <= Likeness(m, identity, query, SelectedByRag(tools, query, topK, Some(identity), true, m)[j])
  {
    var subs := SubQueries(query);
    PickedBeatTheLeftOut(tools, Embedded(m, identity, EmbedTexts(tools)), m.embed(identity, query),
                         Embedded(m, identity, subs), m, EffectiveK(|tools|, topK, |subs|), j, u);
    GlobalScoreIsLikeness(tools, m, identity, query, SelectedByRag(tools, query, topK, Some(identity), true, m)[j]);
    GlobalScoreIsLikeness(tools, m, identity, query, u);
  }

  /** And those tools come best first. */
  lemma TheRestIsRanked(tools: seq<Tool>, query: string, topK: int, identity: string, m: Model, i: nat, j: nat)
    requires DistinctNames(tools) && Trim(query) != ""
    requires |SubQueries(query)| <= i < j < |SelectedByRag(tools, query, topK, Some(identity), true, m)|
    ensures var selected := SelectedByRag(tools, query, topK, Some(identity), true, m);
            Likeness(m, identity, query, selected[i]) >= Likeness(m, identity, query, selected[j])
  {
    var subs := SubQueries(query);
    var k := EffectiveK(|tools|, topK, |subs|);
    var selected := SelectedByRag(tools, query, topK, Some(identity), true, m);
    PickedAreRanked(tools, Embedded(m, identity, EmbedTexts(tools)), m.embed(identity, query),
                    Embedded(m, identity, subs), m, k, i, j);
    SelectionSize(tools, query, topK, identity, m);
    assert selected[i] in selected && selected[j] in selected;
    GlobalScoreIsLikeness(tools, m, identity, query, selected[i]);
    GlobalScoreIsLikeness(tools, m, identity, query, selected[j]);
  }

  lemma PickedAreRanked(tools: seq<Tool>, vecs: seq<Vec>, q: Vec, subs: seq<Vec>, m: Model, k: nat, i: nat, j: nat)
    requires DistinctNames(tools) && |vecs| == |tools| && k <= |tools|
    requires |subs| <= i < j < |Picked(tools, vecs, q, subs, m, k)|
    ensures var picked := Picked(tools, vecs, q, subs, m, k);
            GlobalScore(tools, vecs, q, m, picked[i]) >= GlobalScore(tools, vecs, q, m, picked[j])
  {
    var reserved := Reserved(tools, vecs, subs, m, k);
    var rest, score := Unclaimed(tools, NameSet(reserved)), (t: Tool) => GlobalScore(tools, vecs, q, m, t);
    ReservedAreDistinct(tools, vecs, subs, m, k);
    RankedIsDescending(rest, score);
    FirstKeepsPlaces(Ranked(rest, score), k - |reserved|, i - |reserved|);
    FirstKeepsPlaces(Ranked(rest, score), k - |reserved|, j - |reserved|);
  }

  lemma FirstKeepsPlaces(s: seq<Tool>, k: int, i: nat)
    requires i < |First(s, k)|
    ensures i < |s| && First(s, k)[i] == s[i]
  {
  }

  /** The excluded catalogue is exactly the tools not selected, each once, in order. */
  lemma SelectedAndExcludedPartition(tools: seq<Tool>, selected: seq<Tool>)
    requires DistinctNames(tools) && DistinctNames(selected) && forall t | t in selected :: t in tools
    ensures var excluded := Unclaimed(tools, NameSet(selected));
            && |selected| + |excluded| == |tools|
            && forall t | t in tools :: t in selected <==> t !in excluded
  {
    assert NameSet(selected) <= NameSet(tools);
    NamesCount(selected);
    UnclaimedCount(tools, NameSet(selected));
    UnclaimedIsTheRest(tools, NameSet(selected));
    forall t | t in tools && t !in selected
      ensures t.name !in NameSet(selected)
    {
      NamesTellApart(tools, selected, t);
    }
  }

  /** What happens to the cache: a selection, under whatever identity the provider then has and
      whether or not it answers, or an invalidation because the tools changed. */
  datatype CacheEvent =
    | Selection(tools: seq<Tool>, query: string, identity: Option<string>, answers: bool)
    | Invalidation

  function CacheStep(cache: Cache, e: CacheEvent, m: Model): Cache {
    match e
    case Selection(tools, query, identity, answers) => CacheAfter(cache, tools, query, identity, answers, m)
    case Invalidation => cache.(vectors := map[])
  }

  function CacheRun(cache: Cache, es: seq<CacheEvent>, m: Model): Cache
    decreases |es|
  {
    if es == [] then cache else CacheRun(CacheStep(cache, es[0], m), es[1..], m)
  }

  lemma CacheStepStaysTrue(cache: Cache, e: CacheEvent, m: Model)
    requires CacheIsTrue(cache, m)
    ensures CacheIsTrue(CacheStep(cache, e, m), m)
  {
    if e.Selection? && e.identity.Some? {
      var renewed := Renewed(cache, e.identity.value);
      assert CacheIsTrue(renewed, m);
      Service.FilledIsTrue(renewed.vectors, UncachedTexts(e.tools, renewed.vectors), m, e.identity.value);
    }
  }

  /** Over any sequence of selections, model changes, failures and invalidations, every cached
      vector is what the current model would answer. */
  lemma {:induction false} CacheAgreesWithRecomputation(cache: Cache, es: seq<CacheEvent>, m: Model)
    requires CacheIsTrue(cache, m)
    ensures CacheIsTrue(CacheRun(cache, es, m), m)
    decreases |es|
  {
    if es != [] {
      CacheStepStaysTrue(cache, es[0], m);
      CacheAgreesWithRecomputation(CacheStep(cache, es[0], m), es[1..], m);
    }
  }

  /** After an answered selection, the same tools cost no further embedding under that identity. */
  lemma NothingIsEmbeddedTwice(cache: Cache, tools: seq<Tool>, query: string, identity: string, m: Model)
    requires Trim(query) != ""
    ensures var after := CacheAfter(cache, tools, query, Some(identity), true, m);
            UncachedTexts(tools, Renewed(after, identity).vectors) == []
  {
    var after := CacheAfter(cache, tools, query, Some(identity), true, m);
    forall i | 0 <= i < |tools|
      ensures EmbedText(tools[i]) in after.vectors
    {
      Service.EveryToolIsCached(tools, Renewed(cache, identity).vectors, m, identity, i);
    }
    AllCached(tools, after.vectors);
  }

  lemma {:induction false} AllCached(tools: seq<Tool>, vectors: map<string, Vec>)
    requires forall i | 0 <= i < |tools| :: EmbedText(tools[i]) in vectors
    ensures UncachedTexts(tools, vectors) == []
  {
    if tools != [] {
      AllCached(tools[1..], vectors);
    }
  }
}
