/** JavaScript's `sort((a, b) => b.score - a.score)` and `slice(0, k)`: a stable sort by
    descending score. Scores are reals, so any two compare. */
module Ranking {
  /** x before everything that does not beat it. */
  function Insert<T>(x: T, s: seq<T>, score: T -> real): seq<T> {
    if s == [] || score(x) >= score(s[0]) then [x] + s else [s[0]] + Insert(x, s[1..], score)
  }

  function Ranked<T>(s: seq<T>, score: T -> real): (r: seq<T>)
    ensures |r| == |s|
  {
    if s == [] then []
    else
      var rest := Ranked(s[1..], score);
      InsertIsOneLonger(s[0], rest, score);
      Insert(s[0], rest, score)
  }

  predicate Descending<T>(s: seq<T>, score: T -> real) {
    forall i, j | 0 <= i < j < |s| :: score(s[i]) >= score(s[j])
  }

  /** `slice(0, k)`; a negative k counts from the end. */
  function First<T>(s: seq<T>, k: int): seq<T> {
    if k >= |s| then s else if k >= 0 then s[..k] else if |s| + k > 0 then s[..|s| + k] else []
  }

  lemma {:induction false} InsertIsOneLonger<T>(x: T, s: seq<T>, score: T -> real)
    ensures |Insert(x, s, score)| == |s| + 1
  {
    if s != [] && score(x) < score(s[0]) {
      InsertIsOneLonger(x, s[1..], score);
    }
  }

  lemma {:induction false} InsertKeepsOrder<T>(x: T, s: seq<T>, score: T -> real)
    requires Descending(s, score)
    ensures Descending(Insert(x, s, score), score)
    ensures forall y | y in Insert(x, s, score) :: y == x || y in s
  {
    if s != [] && score(x) < score(s[0]) {
      InsertKeepsOrder(x, s[1..], score);
      var rest := Insert(x, s[1..], score);
      forall j | 0 <= j < |rest|
        ensures score(s[0]) >= score(rest[j])
      {
        assert rest[j] in rest;
        if rest[j] != x {
          var k :| 0 <= k < |s[1..]| && s[1..][k] == rest[j];
          assert s[k + 1] == rest[j];
        }
      }
    }
  }

  lemma {:induction false} InsertIsAPermutation<T>(x: T, s: seq<T>, score: T -> real)
    ensures multiset(Insert(x, s, score)) == multiset{x} + multiset(s)
  {
    if s != [] && score(x) < score(s[0]) {
      InsertIsAPermutation(x, s[1..], score);
      assert s == [s[0]] + s[1..];
    }
  }

  lemma {:induction false} RankedIsDescending<T>(s: seq<T>, score: T -> real)
    ensures Descending(Ranked(s, score), score)
  {
    if s != [] {
      RankedIsDescending(s[1..], score);
      InsertKeepsOrder(s[0], Ranked(s[1..], score), score);
    }
  }

  lemma {:induction false} RankedIsAPermutation<T>(s: seq<T>, score: T -> real)
    ensures multiset(Ranked(s, score)) == multiset(s)
  {
    if s != [] {
      RankedIsAPermutation(s[1..], score);
      InsertIsAPermutation(s[0], Ranked(s[1..], score), score);
      assert s == [s[0]] + s[1..];
    }
  }

  lemma RankedHasTheSame<T>(s: seq<T>, score: T -> real, x: T)
    ensures x in Ranked(s, score) <==> x in s
  {
    RankedIsAPermutation(s, score);
    assert x in multiset(Ranked(s, score)) <==> x in multiset(s);
  }

  predicate DistinctBy<T, K(==)>(s: seq<T>, key: T -> K) {
    forall i, j | 0 <= i < j < |s| :: key(s[i]) != key(s[j])
  }

  lemma {:induction false} InsertKeepsDistinct<T, K>(x: T, s: seq<T>, score: T -> real, key: T -> K)
    requires DistinctBy(s, key) && forall i | 0 <= i < |s| :: key(s[i]) != key(x)
    ensures DistinctBy(Insert(x, s, score), key)
    ensures forall y | y in Insert(x, s, score) :: y == x || y in s
  {
    if s != [] && score(x) < score(s[0]) {
      assert forall i | 0 <= i < |s| - 1 :: s[1..][i] == s[i + 1];
      InsertKeepsDistinct(x, s[1..], score, key);
      var rest := Insert(x, s[1..], score);
      forall j | 0 <= j < |rest|
        ensures key(rest[j]) != key(s[0])
      {
        assert rest[j] in rest;
        if rest[j] != x {
          var k :| 0 <= k < |s| - 1 && s[1..][k] == rest[j];
          assert s[k + 1] == rest[j];
        }
      }
    }
  }

  lemma {:induction false} RankedKeepsDistinct<T, K>(s: seq<T>, score: T -> real, key: T -> K)
    requires DistinctBy(s, key)
    ensures DistinctBy(Ranked(s, score), key)
  {
    if s != [] {
      var rest := Ranked(s[1..], score);
      assert forall i | 0 <= i < |s| - 1 :: s[1..][i] == s[i + 1];
      RankedKeepsDistinct(s[1..], score, key);
      forall j | 0 <= j < |rest|
        ensures key(rest[j]) != key(s[0])
      {
        RankedHasTheSame(s[1..], score, rest[j]);
        var k :| 0 <= k < |s| - 1 && s[1..][k] == rest[j];
        assert s[k + 1] == rest[j];
      }
      InsertKeepsDistinct(s[0], rest, score, key);
    }
  }

  /** The elements that score v, in order. */
  function Scoring<T>(s: seq<T>, score: T -> real, v: real): seq<T> {
    if s == [] then [] else (if score(s[0]) == v then [s[0]] else []) + Scoring(s[1..], score, v)
  }

  lemma ScoringHead<T>(x: T, s: seq<T>, score: T -> real, v: real)
    ensures Scoring([x] + s, score, v) == (if score(x) == v then [x] else []) + Scoring(s, score, v)
  {
    assert ([x] + s)[1..] == s;
  }

  lemma {:induction false} InsertIsStable<T>(x: T, s: seq<T>, score: T -> real, v: real)
    ensures Scoring(Insert(x, s, score), score, v) == (if score(x) == v then [x] else []) + Scoring(s, score, v)
  {
    if s != [] && score(x) < score(s[0]) {
      InsertIsStable(x, s[1..], score, v);
      ScoringHead(s[0], Insert(x, s[1..], score), score, v);
    } else {
      ScoringHead(x, s, score, v);
    }
  }

  /** Elements with equal scores keep their order. */
  lemma {:induction false} RankedIsStable<T>(s: seq<T>, score: T -> real, v: real)
    ensures Scoring(Ranked(s, score), score, v) == Scoring(s, score, v)
  {
    if s != [] {
      RankedIsStable(s[1..], score, v);
      InsertIsStable(s[0], Ranked(s[1..], score), score, v);
    }
  }

  lemma {:induction false} NothingScoresAbove<T>(s: seq<T>, score: T -> real, v: real)
    requires forall i | 0 <= i < |s| :: score(s[i]) < v
    ensures Scoring(s, score, v) == []
  {
    if s != [] {
      NothingScoresAbove(s[1..], score, v);
    }
  }

  lemma HeadsAgree<T>(a: seq<T>, b: seq<T>, score: T -> real)
    requires a != [] && Descending(b, score) && Scoring(a, score, score(a[0])) == Scoring(b, score, score(a[0]))
    ensures b != [] && score(b[0]) >= score(a[0])
  {
    if b != [] && score(b[0]) < score(a[0]) {
      NothingScoresAbove(b, score, score(a[0]));
    }
  }

  /** There is only one stable descending order, so it does not matter which algorithm sorts. */
  lemma {:induction false} StableOrderIsUnique<T>(a: seq<T>, b: seq<T>, score: T -> real)
    requires Descending(a, score) && Descending(b, score)
    requires forall v: real :: Scoring(a, score, v) == Scoring(b, score, v)
    ensures a == b
    decreases |a| + |b|
  {
    if a != [] {
      HeadsAgree(a, b, score);
      HeadsAgree(b, a, score);
      assert score(a[0]) == score(b[0]);
      forall v: real
        ensures Scoring(a[1..], score, v) == Scoring(b[1..], score, v)
      {
        assert Scoring(a, score, v) == Scoring(b, score, v);
        if score(a[0]) == v {
          assert Scoring(a[1..], score, v) == Scoring(a, score, v)[1..];
          assert Scoring(b[1..], score, v) == Scoring(b, score, v)[1..];
        } else {
          assert Scoring(a[1..], score, v) == Scoring(a, score, v);
          assert Scoring(b[1..], score, v) == Scoring(b, score, v);
        }
      }
      assert Scoring(a, score, score(a[0]))[0] == Scoring(b, score, score(a[0]))[0];
      StableOrderIsUnique(a[1..], b[1..], score);
    } else if b != [] {
      HeadsAgree(b, a, score);
    }
  }

  /** What stays out of the first k does not beat what is in. */
  lemma FirstBeatsTheRest<T>(s: seq<T>, score: T -> real, k: nat, x: T, y: T)
    requires x in First(Ranked(s, score), k) && y in s && y !in First(Ranked(s, score), k)
    ensures score(x) >= score(y)
  {
    var r := Ranked(s, score);
    RankedHasTheSame(s, score, y);
    RankedIsDescending(s, score);
    var i :| 0 <= i < |r| && i < k && r[i] == x;
    var j :| 0 <= j < |r| && r[j] == y;
    assert y !in r[..if k < |r| then k else |r|];
  }
}
