/** The similarity scorers of the fuzzy-matching library and its
    `process.extract` ranking. The scorers themselves are foreign code: they are
    parameters of the model, arbitrary functions of two strings. */
module Scoring {

  type Scorer = (string, string) -> int

  /** `fuzz.ratio`, `fuzz.token_sort_ratio` and `fuzz.token_set_ratio`. */
  datatype Scorers = Scorers(ratio: Scorer, tokenSortRatio: Scorer, tokenSetRatio: Scorer)

  /** `fuzz.ratio` returns 100 when both strings are equal. */
  ghost predicate ReflexiveRatio(sc: Scorers) {
    forall s :: sc.ratio(s, s) == 100
  }

  /** One `(choice, score, key)` triple of `process.extract`, with the choice
      given by its position `index` in the choice list. */
  datatype Scored = Scored(index: nat, score: int)

  /** Every choice scored against the query, in the order of the choices. */
  function ScoreAll(query: string, choices: seq<string>, scorer: Scorer): seq<Scored> {
    seq(|choices|, i requires 0 <= i < |choices| => Scored(i, scorer(query, choices[i])))
  }

  predicate SortedByScore(s: seq<Scored>) {
    forall a, b :: 0 <= a < b < |s| ==> s[a].score >= s[b].score
  }

  predicate DistinctIndices(s: seq<Scored>) {
    forall a, b :: 0 <= a < b < |s| ==> s[a].index != s[b].index
  }

  /** Insert `x` before the first element that does not score more than it. */
  function Insert(x: Scored, s: seq<Scored>): (r: seq<Scored>)
    ensures |r| == |s| + 1
    decreases |s|
  {
    if s == [] || x.score >= s[0].score then [x] + s else [s[0]] + Insert(x, s[1..])
  }

  /** Stable sort by decreasing score: equal scores keep the order of the
      choices, as `heapq.nlargest` does. */
  function SortByScore(s: seq<Scored>): (r: seq<Scored>)
    ensures |r| == |s|
    decreases |s|
  {
    if s == [] then [] else Insert(s[0], SortByScore(s[1..]))
  }

  lemma {:induction false} InsertElements(x: Scored, s: seq<Scored>)
    ensures multiset(Insert(x, s)) == multiset(s) + multiset{x}
    ensures forall e :: e in Insert(x, s) <==> e == x || e in s
    decreases |s|
  {
    if s != [] && x.score < s[0].score {
      InsertElements(x, s[1..]);
      assert s == [s[0]] + s[1..];
    }
  }

  lemma PrependSorted(y: Scored, t: seq<Scored>)
    requires SortedByScore(t)
    requires forall e :: e in t ==> e.score <= y.score
    ensures SortedByScore([y] + t)
  {
    forall a, b | 0 <= a < b < |[y] + t|
      ensures ([y] + t)[a].score >= ([y] + t)[b].score
    {
      if a == 0 {
        assert ([y] + t)[b] in t;
      } else {
        assert ([y] + t)[a] == t[a - 1] && ([y] + t)[b] == t[b - 1];
      }
    }
  }

  lemma {:induction false} InsertSorted(x: Scored, s: seq<Scored>)
    requires SortedByScore(s)
    ensures SortedByScore(Insert(x, s))
    decreases |s|
  {
    if s == [] {
    } else if x.score >= s[0].score {
      forall e | e in s ensures e.score <= x.score {
        var b :| 0 <= b < |s| && s[b] == e;
      }
      PrependSorted(x, s);
    } else {
      var t := s[1..];
      assert SortedByScore(t);
      InsertSorted(x, t);
      InsertElements(x, t);
      forall e | e in Insert(x, t) ensures e.score <= s[0].score {
        if e != x {
          var b :| 0 <= b < |t| && t[b] == e;
          assert s[b + 1] == e;
        }
      }
      PrependSorted(s[0], Insert(x, t));
    }
  }

  predicate IndexFresh(x: Scored, s: seq<Scored>) {
    forall e :: e in s ==> e.index != x.index
  }

  lemma PrependDistinct(y: Scored, t: seq<Scored>)
    requires DistinctIndices(t) && IndexFresh(y, t)
    ensures DistinctIndices([y] + t)
  {
    forall a, b | 0 <= a < b < |[y] + t|
      ensures ([y] + t)[a].index != ([y] + t)[b].index
    {
      if a == 0 {
        assert ([y] + t)[b] in t;
      } else {
        assert ([y] + t)[a] == t[a - 1] && ([y] + t)[b] == t[b - 1];
      }
    }
  }

  lemma {:induction false} InsertDistinct(x: Scored, s: seq<Scored>)
    requires DistinctIndices(s) && IndexFresh(x, s)
    ensures DistinctIndices(Insert(x, s))
    decreases |s|
  {
    if s == [] {
    } else if x.score >= s[0].score {
      PrependDistinct(x, s);
    } else {
      var t := s[1..];
      assert DistinctIndices(t);
      assert IndexFresh(x, t);
      InsertDistinct(x, t);
      InsertElements(x, t);
      forall e | e in Insert(x, t) ensures e.index != s[0].index {
        if e != x {
          var b :| 0 <= b < |t| && t[b] == e;
          assert s[b + 1] == e;
        }
      }
      PrependDistinct(s[0], Insert(x, t));
    }
  }

  /** Sorting permutes the scored choices. */
  lemma {:induction false} SortByScoreElements(s: seq<Scored>)
    ensures multiset(SortByScore(s)) == multiset(s)
    ensures forall e :: e in SortByScore(s) <==> e in s
    decreases |s|
  {
    if s != [] {
      var t := s[1..];
      assert s == [s[0]] + t;
      SortByScoreElements(t);
      InsertElements(s[0], SortByScore(t));
    }
  }

  /** Sorting orders the scored choices best first. */
  lemma {:induction false} SortByScoreSorted(s: seq<Scored>)
    ensures SortedByScore(SortByScore(s))
    decreases |s|
  {
    if s != [] {
      SortByScoreSorted(s[1..]);
      InsertSorted(s[0], SortByScore(s[1..]));
    }
  }

  /** Sorting keeps the indices distinct. */
  lemma {:induction false} SortByScoreDistinct(s: seq<Scored>)
    requires DistinctIndices(s)
    ensures DistinctIndices(SortByScore(s))
    decreases |s|
  {
    if s != [] {
      var t := s[1..];
      assert DistinctIndices(t);
      SortByScoreDistinct(t);
      var rest := SortByScore(t);
      SortByScoreElements(t);
      forall e | e in rest ensures e.index != s[0].index {
        var b :| 0 <= b < |t| && t[b] == e;
        assert s[b + 1] == e;
      }
      InsertDistinct(s[0], rest);
    }
  }

  /** Sorting permutes the scored choices, orders them best first, and keeps
      their indices distinct. */
  lemma SortByScoreFacts(s: seq<Scored>)
    ensures multiset(SortByScore(s)) == multiset(s)
    ensures forall e :: e in SortByScore(s) <==> e in s
    ensures SortedByScore(SortByScore(s))
    ensures DistinctIndices(s) ==> DistinctIndices(SortByScore(s))
  {
    SortByScoreElements(s);
    SortByScoreSorted(s);
    if DistinctIndices(s) {
      SortByScoreDistinct(s);
    }
  }

  /** `process.extract(query, choices, limit=limit, scorer=scorer)`: the scored
      choices, best first, cut to `limit` entries. */
  function Extract(query: string, choices: seq<string>, scorer: Scorer, limit: nat): (top: seq<Scored>)
    ensures |top| == if limit < |choices| then limit else |choices|
  {
    var ranked := SortByScore(ScoreAll(query, choices, scorer));
    ranked[..if limit < |choices| then limit else |choices|]
  }

  /** The extracted entries are best first and name each choice at most once. */
  lemma ExtractSortedDistinct(query: string, choices: seq<string>, scorer: Scorer, limit: nat)
    ensures SortedByScore(Extract(query, choices, scorer, limit))
    ensures DistinctIndices(Extract(query, choices, scorer, limit))
  {
    var all := ScoreAll(query, choices, scorer);
    var k := if limit < |choices| then limit else |choices|;
    SortByScoreFacts(all);
    assert DistinctIndices(all);
    assert Extract(query, choices, scorer, limit) == SortByScore(all)[..k];
  }

  /** Each extracted entry is a choice with its own score. */
  lemma ExtractScores(query: string, choices: seq<string>, scorer: Scorer, limit: nat)
    ensures forall h :: h in Extract(query, choices, scorer, limit) ==>
              h.index < |choices| && h.score == scorer(query, choices[h.index])
  {
    var all := ScoreAll(query, choices, scorer);
    var ranked := SortByScore(all);
    var k := if limit < |choices| then limit else |choices|;
    var top := ranked[..k];
    assert top == Extract(query, choices, scorer, limit);
    SortByScoreFacts(all);
    forall h | h in top
      ensures h.index < |choices| && h.score == scorer(query, choices[h.index])
    {
      var j :| 0 <= j < k && top[j] == h;
      assert h in all;
    }
  }

  /** Every choice left out scores no more than any choice returned. */
  lemma ExtractTop(query: string, choices: seq<string>, scorer: Scorer, limit: nat)
    ensures forall i :: 0 <= i < |choices| ==>
              Scored(i, scorer(query, choices[i])) in Extract(query, choices, scorer, limit)
              || forall h :: h in Extract(query, choices, scorer, limit) ==> h.score >= scorer(query, choices[i])
  {
    var all := ScoreAll(query, choices, scorer);
    var ranked := SortByScore(all);
    var k := if limit < |choices| then limit else |choices|;
    var top := ranked[..k];
    assert top == Extract(query, choices, scorer, limit);
    SortByScoreFacts(all);
    forall i | 0 <= i < |choices|
      ensures Scored(i, scorer(query, choices[i])) in top
              || forall h :: h in top ==> h.score >= scorer(query, choices[i])
    {
      var e := all[i];
      assert e in ranked;
      var p :| 0 <= p < |ranked| && ranked[p] == e;
      if p < k {
        assert top[p] == e;
      } else {
        forall h | h in top ensures h.score >= e.score {
          var j :| 0 <= j < k && top[j] == h;
        }
      }
    }
  }

  /** What `process.extract` promises: at most `limit` entries, best first,
      each choice at most once with its own score, and every choice left out
      scores no more than any choice returned. */
  lemma ExtractFacts(query: string, choices: seq<string>, scorer: Scorer, limit: nat)
    ensures SortedByScore(Extract(query, choices, scorer, limit))
    ensures DistinctIndices(Extract(query, choices, scorer, limit))
    ensures forall h :: h in Extract(query, choices, scorer, limit) ==>
              h.index < |choices| && h.score == scorer(query, choices[h.index])
    ensures forall i :: 0 <= i < |choices| ==>
              Scored(i, scorer(query, choices[i])) in Extract(query, choices, scorer, limit)
              || forall h :: h in Extract(query, choices, scorer, limit) ==> h.score >= scorer(query, choices[i])
  {
    ExtractSortedDistinct(query, choices, scorer, limit);
    ExtractScores(query, choices, scorer, limit);
    ExtractTop(query, choices, scorer, limit);
  }
}
