/** The merge of per-scope vector searches (backend/src/custom-tools/custom-tool.factory.ts,
    mergeSearchHits and the `auto` branch of executeRagSearch). */
module SearchMerge {
  import opened Ranking

  datatype Hit = Hit(id: string, score: real, payload: string)

  function Score(h: Hit): real {
    h.score
  }

  /** `byId.set(h.id, h)` behind the guard: a map keeps a key's place when its value changes. */
  function Noted(byId: seq<Hit>, h: Hit): seq<Hit> {
    if byId == [] then [h]
    else if byId[0].id == h.id then [if h.score > byId[0].score then h else byId[0]] + byId[1..]
    else [byId[0]] + Noted(byId[1..], h)
  }

  function NotedAll(byId: seq<Hit>, hits: seq<Hit>): seq<Hit>
    decreases |hits|
  {
    if hits == [] then byId else NotedAll(Noted(byId, hits[0]), hits[1..])
  }

  function Flat(groups: seq<seq<Hit>>): seq<Hit> {
    if groups == [] then [] else groups[0] + Flat(groups[1..])
  }

  function Merged(groups: seq<seq<Hit>>, limit: int): seq<Hit> {
    First(Ranked(NotedAll([], Flat(groups)), Score), limit)
  }

  /** Where the id is, or |byId|. */
  function At(byId: seq<Hit>, id: string): (at: nat)
    ensures at <= |byId| && (at < |byId| ==> byId[at].id == id)
  {
    if byId == [] || byId[0].id == id then 0 else 1 + At(byId[1..], id)
  }

  lemma {:induction false} NotedAt(byId: seq<Hit>, h: Hit)
    ensures var at := At(byId, h.id);
            Noted(byId, h) == if at == |byId| then byId + [h]
                              else if h.score > byId[at].score then byId[at := h] else byId
  {
    if byId != [] && byId[0].id != h.id {
      NotedAt(byId[1..], h);
    }
  }

  method MergeSearchHits(groups: seq<seq<Hit>>, limit: int) returns (out: seq<Hit>)
    ensures out == Merged(groups, limit)
  {
    var byId: seq<Hit> := [];
    for i := 0 to |groups|
      invariant NotedAll(byId, Flat(groups[i..])) == NotedAll([], Flat(groups))
    {
      var g := groups[i];
      assert groups[i..][1..] == groups[i + 1..];
      ghost var rest := Flat(groups[i + 1..]);
      for k := 0 to |g|
        invariant NotedAll(byId, g[k..] + rest) == NotedAll([], Flat(groups))
      {
        assert (g[k..] + rest)[0] == g[k] && (g[k..] + rest)[1..] == g[k + 1..] + rest;
        var prev := At(byId, g[k].id);
        NotedAt(byId, g[k]);
        if prev == |byId| {
          byId := byId + [g[k]];
        } else if g[k].score > byId[prev].score {
          byId := byId[prev := g[k]];
        }
      }
      assert g[|g|..] + rest == rest;
    }
    out := First(Ranked(byId, Score), limit);
  }

  /** No two hits share an id. */
  predicate Distinct(hits: seq<Hit>) {
    forall i, j | 0 <= i < j < |hits| :: hits[i].id != hits[j].id
  }

  /** Some hit in the list has this id and scores at least v. */
  predicate Reaches(hits: seq<Hit>, id: string, v: real) {
    exists h | h in hits :: h.id == id && h.score >= v
  }

  lemma {:induction false} NotedInvariant(byId: seq<Hit>, h: Hit)
    requires Distinct(byId)
    ensures Distinct(Noted(byId, h))
    ensures forall k | k in Noted(byId, h) :: k == h || k in byId
  {
    if byId != [] && byId[0].id != h.id {
      NotedInvariant(byId[1..], h);
      var rest := Noted(byId[1..], h);
      assert forall k | k in byId[1..] :: k in byId;
      forall j | 0 <= j < |rest|
        ensures rest[j].id != byId[0].id
      {
        assert rest[j] in rest;
        if rest[j] != h {
          var k :| 0 <= k < |byId| - 1 && byId[1..][k] == rest[j];
          assert byId[k + 1] == rest[j];
        }
      }
    }
  }

  lemma {:induction false} NotedReaches(byId: seq<Hit>, h: Hit, id: string, v: real)
    requires Reaches(byId, id, v) || (h.id == id && h.score >= v)
    ensures Reaches(Noted(byId, h), id, v)
  {
    var out := Noted(byId, h);
    NotedAt(byId, h);
    var at := At(byId, h.id);
    if h.id == id && h.score >= v {
      assert at < |byId| ==> out[at].id == id && out[at].score >= v && out[at] in out;
      assert at == |byId| ==> out[at] == h && h in out;
    } else {
      var k :| k in byId && k.id == id && k.score >= v;
      var i :| 0 <= i < |byId| && byId[i] == k;
      assert out[i] in out && out[i].id == id && out[i].score >= v;
    }
  }

  /** The map after all groups: one hit per id, a given one, at least as good as any given. */
  lemma {:induction false} NotedAllInvariant(byId: seq<Hit>, hits: seq<Hit>)
    requires Distinct(byId)
    ensures Distinct(NotedAll(byId, hits))
    ensures forall k | k in NotedAll(byId, hits) :: k in byId || k in hits
    decreases |hits|
  {
    if hits != [] {
      NotedInvariant(byId, hits[0]);
      NotedAllInvariant(Noted(byId, hits[0]), hits[1..]);
    }
  }

  lemma {:induction false} NotedAllReaches(byId: seq<Hit>, hits: seq<Hit>, id: string, v: real)
    requires Reaches(byId, id, v) || Reaches(hits, id, v)
    ensures Reaches(NotedAll(byId, hits), id, v)
    decreases |hits|
  {
    if hits != [] {
      if Reaches(byId, id, v) || (hits[0].id == id && hits[0].score >= v) {
        NotedReaches(byId, hits[0], id, v);
      } else {
        var h :| h in hits && h.id == id && h.score >= v;
        assert h in hits[1..];
      }
      NotedAllReaches(Noted(byId, hits[0]), hits[1..], id, v);
    }
  }

  // ---- Which hit of a document is kept, and where

  /** The ids of the first n hits, each where it comes first. */
  function FirstIds(hits: seq<Hit>, n: nat): seq<string>
    requires n <= |hits|
  {
    if n == 0 then []
    else
      var ids := FirstIds(hits, n - 1);
      if hits[n - 1].id in ids then ids else ids + [hits[n - 1].id]
  }

  /** The position of the best of the first n hits with the id, the first of equals; |hits| if none has it. */
  function BestAt(hits: seq<Hit>, n: nat, id: string): (at: nat)
    requires n <= |hits|
    ensures at == |hits| || (at < n && hits[at].id == id)
  {
    if n == 0 then |hits|
    else
      var at := BestAt(hits, n - 1, id);
      if hits[n - 1].id == id && (at == |hits| || hits[n - 1].score > hits[at].score) then n - 1 else at
  }

  /** Among the first n hits with the id none scores more than it, and each before it scores less. */
  lemma {:induction false} BestAtIsBest(hits: seq<Hit>, n: nat, id: string, i: nat)
    requires i < n <= |hits| && hits[i].id == id
    ensures var at := BestAt(hits, n, id);
            at < n && hits[i].score <= hits[at].score && (i < at ==> hits[i].score < hits[at].score)
  {
    if i < n - 1 {
      BestAtIsBest(hits, n - 1, id, i);
    } else if BestAt(hits, n - 1, id) < |hits| {
      BestAtIsBest(hits, n - 1, id, BestAt(hits, n - 1, id));
    }
  }

  /** The map holds, for each id in the order of first appearance, its best hit. */
  predicate HoldsTheBest(byId: seq<Hit>, hits: seq<Hit>, n: nat)
    requires n <= |hits|
  {
    && |byId| == |FirstIds(hits, n)|
    && forall k | 0 <= k < |byId| ::
         && byId[k].id == FirstIds(hits, n)[k]
         && BestAt(hits, n, byId[k].id) < |hits| && byId[k] == hits[BestAt(hits, n, byId[k].id)]
  }

  lemma {:induction false} AtOfIds(byId: seq<Hit>, ids: seq<string>, id: string)
    requires |byId| == |ids| && forall k | 0 <= k < |ids| :: byId[k].id == ids[k]
    ensures At(byId, id) < |byId| <==> id in ids
  {
    if byId != [] {
      AtOfIds(byId[1..], ids[1..], id);
      assert ids == [ids[0]] + ids[1..];
    }
  }

  /** The hit is the best of the first n with its id. */
  predicate IsTheBest(h: Hit, hits: seq<Hit>, n: nat)
    requires n <= |hits|
  {
    BestAt(hits, n, h.id) < |hits| && h == hits[BestAt(hits, n, h.id)]
  }

  lemma BestOfOthers(h: Hit, hits: seq<Hit>, n: nat)
    requires n < |hits| && IsTheBest(h, hits, n) && h.id != hits[n].id
    ensures IsTheBest(h, hits, n + 1)
  {
  }

  lemma FirstOfItsId(hits: seq<Hit>, n: nat)
    requires n < |hits| && hits[n].id !in FirstIds(hits, n)
    ensures IsTheBest(hits[n], hits, n + 1) && FirstIds(hits, n + 1) == FirstIds(hits, n) + [hits[n].id]
  {
    NeverSeen(hits, n, hits[n].id);
  }

  lemma NewHit(byId: seq<Hit>, hits: seq<Hit>, n: nat)
    requires n < |hits| && HoldsTheBest(byId, hits, n) && hits[n].id !in FirstIds(hits, n)
    ensures HoldsTheBest(byId + [hits[n]], hits, n + 1)
  {
    var all, ids := byId + [hits[n]], FirstIds(hits, n);
    FirstOfItsId(hits, n);
    forall k | 0 <= k < |all|
      ensures all[k].id == (ids + [hits[n].id])[k] && IsTheBest(all[k], hits, n + 1)
    {
      if k < |byId| {
        assert all[k] == byId[k] && byId[k].id in ids;
        BestOfOthers(byId[k], hits, n);
      }
    }
  }

  lemma KnownHit(byId: seq<Hit>, hits: seq<Hit>, n: nat, at: nat)
    requires n < |hits| && HoldsTheBest(byId, hits, n) && Distinct(byId)
    requires at < |byId| && byId[at].id == hits[n].id
    ensures HoldsTheBest(if hits[n].score > byId[at].score then byId[at := hits[n]] else byId, hits, n + 1)
  {
    var all := if hits[n].score > byId[at].score then byId[at := hits[n]] else byId;
    assert byId[at].id in FirstIds(hits, n);
    forall k | 0 <= k < |all|
      ensures all[k].id == FirstIds(hits, n + 1)[k] && IsTheBest(all[k], hits, n + 1)
    {
      if k != at {
        assert all[k] == byId[k] && byId[k].id != hits[n].id;
      }
    }
  }

  lemma NotedHoldsTheBest(byId: seq<Hit>, hits: seq<Hit>, n: nat)
    requires n < |hits| && HoldsTheBest(byId, hits, n) && Distinct(byId)
    ensures HoldsTheBest(Noted(byId, hits[n]), hits, n + 1)
  {
    NotedAt(byId, hits[n]);
    AtOfIds(byId, FirstIds(hits, n), hits[n].id);
    if At(byId, hits[n].id) == |byId| {
      NewHit(byId, hits, n);
    } else {
      KnownHit(byId, hits, n, At(byId, hits[n].id));
    }
  }

  lemma {:induction false} NeverSeen(hits: seq<Hit>, n: nat, id: string)
    requires n <= |hits| && id !in FirstIds(hits, n)
    ensures BestAt(hits, n, id) == |hits|
  {
    if n > 0 {
      NeverSeen(hits, n - 1, id);
    }
  }

  lemma {:induction false} NotedAllSnoc(byId: seq<Hit>, hits: seq<Hit>, h: Hit)
    ensures NotedAll(byId, hits + [h]) == Noted(NotedAll(byId, hits), h)
    decreases |hits|
  {
    if hits == [] {
      assert ([] + [h])[1..] == [];
    } else {
      assert (hits + [h])[1..] == hits[1..] + [h];
      NotedAllSnoc(Noted(byId, hits[0]), hits[1..], h);
    }
  }

  /** Of each document the best hit found is kept, the first of equals, whole; and the documents
      stand in the order they were first found until they are ranked. */
  lemma {:induction false} TheBestAreKept(hits: seq<Hit>, n: nat)
    requires n <= |hits|
    ensures HoldsTheBest(NotedAll([], hits[..n]), hits, n)
  {
    if n > 0 {
      TheBestAreKept(hits, n - 1);
      NotedAllInvariant([], hits[..n - 1]);
      NotedAllSnoc([], hits[..n - 1], hits[n - 1]);
      assert hits[..n] == hits[..n - 1] + [hits[n - 1]];
      NotedHoldsTheBest(NotedAll([], hits[..n - 1]), hits, n - 1);
    }
  }
}
