/** Searching each scope for its own best and merging finds the best of all scopes. */
module SearchOptimality {
  import opened Ranking
  import opened SearchMerge

  /** The vector database's contract for one scope: its `limit` best documents. */
  predicate IsTopOf(group: seq<Hit>, scope: seq<Hit>, limit: nat) {
    && Distinct(scope) && Distinct(group)
    && |group| == (if limit <= |scope| then limit else |scope|)
    && (forall g | g in group :: g in scope)
    && forall g, h | g in group && h in scope && h !in group :: g.score >= h.score
  }

  predicate AreTopsOf(groups: seq<seq<Hit>>, scopes: seq<seq<Hit>>, limit: nat) {
    |groups| == |scopes| && forall i | 0 <= i < |groups| :: IsTopOf(groups[i], scopes[i], limit)
  }

  function Ids(hits: seq<Hit>): set<string> {
    set h | h in hits :: h.id
  }

  lemma {:induction false} AtMostOneIdEach(hits: seq<Hit>)
    ensures |Ids(hits)| <= |hits|
  {
    if hits != [] {
      AtMostOneIdEach(hits[1..]);
      assert Ids(hits) == {hits[0].id} + Ids(hits[1..]);
    }
  }

  lemma {:induction false} DistinctIdsCount(hits: seq<Hit>)
    requires Distinct(hits)
    ensures |Ids(hits)| == |hits|
  {
    if hits != [] {
      DistinctIdsCount(hits[1..]);
      assert Ids(hits) == {hits[0].id} + Ids(hits[1..]);
      assert hits[0].id !in Ids(hits[1..]) by {
        forall h | h in hits[1..]
          ensures h.id != hits[0].id
        {
          var k :| 0 <= k < |hits| - 1 && hits[1..][k] == h;
          assert hits[k + 1] == h;
        }
      }
    }
  }

  lemma SmallerSetIsSmaller(a: set<string>, b: set<string>)
    requires a <= b
    ensures |a| <= |b|
  {
    assert b == a + (b - a);
  }

  /** Distinct ids do not fit in a shorter list. */
  lemma Pigeonhole(group: seq<Hit>, list: seq<Hit>)
    requires Distinct(group) && Ids(group) <= Ids(list)
    ensures |group| <= |list|
  {
    DistinctIdsCount(group);
    AtMostOneIdEach(list);
    SmallerSetIsSmaller(Ids(group), Ids(list));
  }

  /** If as many ids as fit reach t, every position that fits is at t or above. */
  lemma CrowdedAt(ranked: seq<Hit>, group: seq<Hit>, t: real, j: nat)
    requires Descending(ranked, Score) && Distinct(group)
    requires forall g | g in group :: Reaches(ranked, g.id, t)
    requires j <= |ranked| && (j < |ranked| ==> ranked[j].score < t)
    ensures |group| <= j
  {
    forall g | g in group
      ensures g.id in Ids(ranked[..j])
    {
      var h :| h in ranked && h.id == g.id && h.score >= t;
      var i :| 0 <= i < |ranked| && ranked[i] == h;
      assert j < i ==> Score(ranked[j]) >= Score(ranked[i]);
      assert ranked[..j][i] == h;
    }
    Pigeonhole(group, ranked[..j]);
  }

  lemma CrowdedOut(ranked: seq<Hit>, group: seq<Hit>, limit: nat, t: real)
    requires Descending(ranked, Score) && Distinct(group) && |group| >= limit
    requires forall g | g in group :: Reaches(ranked, g.id, t)
    ensures limit <= |ranked| && forall h | h in First(ranked, limit) :: h.score >= t
  {
    CrowdedAt(ranked, group, t, |ranked|);
    forall h | h in First(ranked, limit)
      ensures h.score >= t
    {
      var i :| 0 <= i < limit && i < |ranked| && ranked[i] == h;
      if ranked[i].score < t {
        CrowdedAt(ranked, group, t, i);
      }
    }
  }

  /** A document its own scope's search left out: the search was full. */
  lemma LeftOutMeansFull(group: seq<Hit>, scope: seq<Hit>, limit: nat, u: Hit)
    requires IsTopOf(group, scope, limit) && u in scope && u !in group
    ensures |group| == limit
  {
    var others := [u] + group;
    forall g | g in group
      ensures g.id != u.id
    {
      assert g in scope;
    }
    assert Distinct(others);
    Pigeonhole(others, scope);
  }

  lemma {:induction false} InFlat(groups: seq<seq<Hit>>, i: nat, h: Hit)
    requires i < |groups| && h in groups[i]
    ensures h in Flat(groups)
  {
    if i > 0 {
      InFlat(groups[1..], i - 1, h);
    }
  }

  lemma {:induction false} FromFlat(groups: seq<seq<Hit>>, h: Hit) returns (i: nat)
    requires h in Flat(groups)
    ensures i < |groups| && h in groups[i]
  {
    if h in groups[0] {
      i := 0;
    } else {
      i := FromFlat(groups[1..], h);
      i := i + 1;
    }
  }

  function AllRanked(groups: seq<seq<Hit>>): seq<Hit> {
    Ranked(NotedAll([], Flat(groups)), Score)
  }

  lemma RankedReaches(groups: seq<seq<Hit>>, i: nat, g: Hit)
    requires i < |groups| && g in groups[i]
    ensures Reaches(AllRanked(groups), g.id, g.score)
  {
    InFlat(groups, i, g);
    assert Reaches(Flat(groups), g.id, g.score);
    NotedAllReaches([], Flat(groups), g.id, g.score);
    var h :| h in NotedAll([], Flat(groups)) && h.id == g.id && h.score >= g.score;
    RankedHasTheSame(NotedAll([], Flat(groups)), Score, h);
  }

  /** Any document of any scope either is in its scope's group or is beaten by a whole
      answer's worth of others. */
  lemma InItsGroupOrBeaten(groups: seq<seq<Hit>>, scopes: seq<seq<Hit>>, limit: nat, i: nat, u: Hit)
    requires AreTopsOf(groups, scopes, limit) && i < |scopes| && u in scopes[i]
    ensures u in groups[i] ||
            (limit <= |AllRanked(groups)| && forall h | h in Merged(groups, limit) :: h.score >= u.score)
  {
    if u !in groups[i] {
      assert IsTopOf(groups[i], scopes[i], limit);
      LeftOutMeansFull(groups[i], scopes[i], limit, u);
      forall g | g in groups[i]
        ensures Reaches(AllRanked(groups), g.id, u.score)
      {
        RankedReaches(groups, i, g);
      }
      RankedIsDescending(NotedAll([], Flat(groups)), Score);
      CrowdedOut(AllRanked(groups), groups[i], limit, u.score);
    }
  }

  lemma RankedIsDistinct(groups: seq<seq<Hit>>)
    ensures Distinct(AllRanked(groups)) && Descending(AllRanked(groups), Score)
    ensures forall h | h in AllRanked(groups) :: h in Flat(groups)
  {
    var byId := NotedAll([], Flat(groups));
    var ranked := AllRanked(groups);
    NotedAllInvariant([], Flat(groups));
    RankedIsDescending(byId, Score);
    RankedIsAPermutation(byId, Score);
    forall h | h in ranked
      ensures h in Flat(groups)
    {
      RankedHasTheSame(byId, Score, h);
    }
    RankedKeepsDistinct(byId, Score, (h: Hit) => h.id);
  }

  /** Every answer is a document at its best score over all scopes. */
  lemma AnswersAreTheBestOfTheirDocuments(groups: seq<seq<Hit>>, scopes: seq<seq<Hit>>, limit: nat, h: Hit, u: Hit)
    requires AreTopsOf(groups, scopes, limit) && h in Merged(groups, limit)
    requires u in Flat(scopes) && u.id == h.id
    ensures h in Flat(scopes) && u.score <= h.score
  {
    RankedIsDistinct(groups);
    assert h in AllRanked(groups);
    var i := FromFlat(groups, h);
    assert IsTopOf(groups[i], scopes[i], limit);
    InFlat(scopes, i, h);
    var j := FromFlat(scopes, u);
    InItsGroupOrBeaten(groups, scopes, limit, j, u);
    if u in groups[j] {
      RankedReaches(groups, j, u);
      var k :| k in AllRanked(groups) && k.id == u.id && k.score >= u.score;
      assert k == h;
    }
  }

  /** A document that is not among the answers does not beat any of them, and the answer is full. */
  lemma LeftOutDocumentsAreNoBetter(groups: seq<seq<Hit>>, scopes: seq<seq<Hit>>, limit: nat, u: Hit)
    requires AreTopsOf(groups, scopes, limit)
    requires u in Flat(scopes) && u.id !in Ids(Merged(groups, limit))
    ensures |Merged(groups, limit)| == limit && forall h | h in Merged(groups, limit) :: h.score >= u.score
  {
    var ranked := AllRanked(groups);
    RankedIsDistinct(groups);
    var j := FromFlat(scopes, u);
    InItsGroupOrBeaten(groups, scopes, limit, j, u);
    if u in groups[j] {
      RankedReaches(groups, j, u);
      var k :| k in ranked && k.id == u.id && k.score >= u.score;
      assert k !in Merged(groups, limit);
      var at :| 0 <= at < |ranked| && ranked[at] == k;
      assert k !in ranked[..if limit < |ranked| then limit else |ranked|];
      forall h | h in Merged(groups, limit)
        ensures h.score >= u.score
      {
        var i :| 0 <= i < limit && ranked[i] == h;
        assert Score(ranked[i]) >= Score(ranked[at]);
      }
    }
  }

  /** One hit per document, best first. */
  lemma AnswersAreRankedAndDistinct(groups: seq<seq<Hit>>, limit: int)
    ensures Distinct(Merged(groups, limit)) && Descending(Merged(groups, limit), Score)
  {
    RankedIsDistinct(groups);
  }
}
