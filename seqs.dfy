/** Order-preserving filtering over sequences: the list comprehensions
    `[x for x in xs if p(x)]` and the append-in-a-loop scans of the strategies. */
module Seqs {

  /** `[x for x in s if p(x)]`, built back to front so that a loop that appends
      to a list matches it step by step. */
  function Filter<T>(s: seq<T>, p: T -> bool): (r: seq<T>)
    ensures |r| <= |s|
    ensures forall x :: x in r ==> x in s && p(x)
    decreases |s|
  {
    if s == [] then []
    else
      var n := |s| - 1;
      Filter(s[..n], p) + (if p(s[n]) then [s[n]] else [])
  }

  /** The positions of the elements of `s` that satisfy `p`, in increasing order. */
  function Positions<T>(s: seq<T>, p: T -> bool): seq<nat>
    decreases |s|
  {
    if s == [] then []
    else
      var n := |s| - 1;
      Positions(s[..n], p) + (if p(s[n]) then [n] else [])
  }

  predicate StrictlyIncreasing(ix: seq<nat>) {
    forall a, b :: 0 <= a < b < |ix| ==> ix[a] < ix[b]
  }

  lemma FilterSingleton<T>(x: T, p: T -> bool)
    ensures Filter([x], p) == if p(x) then [x] else []
  {
    assert [x][..0] == [];
  }

  /** Filtering twice is filtering once with both tests. */
  lemma {:induction false} FilterFilter<T>(s: seq<T>, p: T -> bool, q: T -> bool, both: T -> bool)
    requires forall x :: both(x) == (p(x) && q(x))
    ensures Filter(Filter(s, p), q) == Filter(s, both)
    decreases |s|
  {
    if s != [] {
      var n := |s| - 1;
      FilterFilter(s[..n], p, q, both);
      var A := Filter(s[..n], p);
      if p(s[n]) {
        assert Filter(s, p) == A + [s[n]];
        assert (A + [s[n]])[..|A|] == A;
      } else {
        assert Filter(s, p) == A;
      }
    }
  }

  /** Two equally long sequences whose elements pass their tests at the same
      places have the same qualifying positions. */
  lemma {:induction false} PositionsAgree<T, U>(s: seq<T>, p: T -> bool, t: seq<U>, q: U -> bool)
    requires |s| == |t|
    requires forall i :: 0 <= i < |s| ==> p(s[i]) == q(t[i])
    ensures Positions(s, p) == Positions(t, q)
    decreases |s|
  {
    if s != [] {
      var n := |s| - 1;
      PositionsAgree(s[..n], p, t[..n], q);
    }
  }

  /** `outer` looked up at the positions `inner`: the positions in `s` of the
      elements that a second filter keeps out of a first one. */
  function Compose(outer: seq<nat>, inner: seq<nat>): (r: seq<nat>)
    ensures |r| == |inner|
  {
    seq(|inner|, k requires 0 <= k < |inner| => if inner[k] < |outer| then outer[inner[k]] else 0)
  }

  lemma ComposeFacts(outer: seq<nat>, inner: seq<nat>)
    requires StrictlyIncreasing(outer) && StrictlyIncreasing(inner)
    requires forall k :: 0 <= k < |inner| ==> inner[k] < |outer|
    ensures StrictlyIncreasing(Compose(outer, inner))
    ensures forall k :: 0 <= k < |inner| ==> Compose(outer, inner)[k] == outer[inner[k]]
  {
    var r := Compose(outer, inner);
    forall a, b | 0 <= a < b < |r|
      ensures r[a] < r[b]
    {
      assert inner[a] < inner[b];
    }
  }

  /** An element of `outer` is looked up exactly when its position is in `inner`. */
  lemma ComposeMember(outer: seq<nat>, inner: seq<nat>, j: nat)
    requires StrictlyIncreasing(outer)
    requires forall k :: 0 <= k < |inner| ==> inner[k] < |outer|
    requires j < |outer|
    ensures outer[j] in Compose(outer, inner) <==> j in inner
  {
    var r := Compose(outer, inner);
    if outer[j] in r {
      var k :| 0 <= k < |r| && r[k] == outer[j];
      assert outer[inner[k]] == outer[j];
      assert inner[k] == j;
    }
    if j in inner {
      var k :| 0 <= k < |inner| && inner[k] == j;
      assert r[k] == outer[j];
    }
  }

  /** Everything looked up is an element of `outer`. */
  lemma ComposeWithin(outer: seq<nat>, inner: seq<nat>)
    requires forall k :: 0 <= k < |inner| ==> inner[k] < |outer|
    ensures forall x :: x in Compose(outer, inner) ==> x in outer
  {
    var r := Compose(outer, inner);
    forall x | x in r
      ensures x in outer
    {
      var k :| 0 <= k < |r| && r[k] == x;
      assert outer[inner[k]] == x;
    }
  }

  /** `a` can be obtained from `b` by deleting elements. */
  predicate IsSubseq<T(==)>(a: seq<T>, b: seq<T>)
    decreases |b|
  {
    if a == [] then true
    else if b == [] then false
    else
      (a[|a| - 1] == b[|b| - 1] && IsSubseq(a[..|a| - 1], b[..|b| - 1]))
      || IsSubseq(a, b[..|b| - 1])
  }

  /** Filtering keeps exactly the elements that satisfy the predicate, each
      once, in their original order: the k-th kept element is the element at
      the k-th qualifying position. */
  lemma FilterAtPositions<T>(s: seq<T>, p: T -> bool)
    ensures |Filter(s, p)| == |Positions(s, p)|
    ensures StrictlyIncreasing(Positions(s, p))
    ensures forall j :: 0 <= j < |Positions(s, p)| ==>
              Positions(s, p)[j] < |s| && Filter(s, p)[j] == s[Positions(s, p)[j]]
    ensures forall i :: 0 <= i < |s| ==> (i in Positions(s, p) <==> p(s[i]))
  {
    PositionsCount(s, p);
    PositionsBounded(s, p);
    PositionsIncreasing(s, p);
    FilterElements(s, p);
    PositionsExactly(s, p);
  }

  lemma {:induction false} PositionsCount<T>(s: seq<T>, p: T -> bool)
    ensures |Filter(s, p)| == |Positions(s, p)|
    decreases |s|
  {
    if s != [] {
      PositionsCount(s[..|s| - 1], p);
    }
  }

  lemma {:induction false} PositionsBounded<T>(s: seq<T>, p: T -> bool)
    ensures forall j :: 0 <= j < |Positions(s, p)| ==> Positions(s, p)[j] < |s|
    decreases |s|
  {
    if s != [] {
      var n := |s| - 1;
      PositionsBounded(s[..n], p);
      var P := Positions(s[..n], p);
      assert Positions(s, p) == P + (if p(s[n]) then [n] else []);
    }
  }

  lemma {:induction false} PositionsIncreasing<T>(s: seq<T>, p: T -> bool)
    ensures StrictlyIncreasing(Positions(s, p))
    decreases |s|
  {
    if s != [] {
      var n := |s| - 1;
      PositionsIncreasing(s[..n], p);
      PositionsBounded(s[..n], p);
      var P := Positions(s[..n], p);
      var Q := P + (if p(s[n]) then [n] else []);
      assert Positions(s, p) == Q;
      forall a, b | 0 <= a < b < |Q|
        ensures Q[a] < Q[b]
      {
        if b < |P| {
          assert Q[a] == P[a] && Q[b] == P[b];
        } else {
          assert Q[a] == P[a] && Q[b] == n;
        }
      }
    }
  }

  lemma {:induction false} FilterElements<T>(s: seq<T>, p: T -> bool)
    ensures |Filter(s, p)| == |Positions(s, p)|
    ensures forall j :: 0 <= j < |Positions(s, p)| ==>
              Positions(s, p)[j] < |s| && Filter(s, p)[j] == s[Positions(s, p)[j]]
    decreases |s|
  {
    PositionsCount(s, p);
    PositionsBounded(s, p);
    if s != [] {
      var n := |s| - 1;
      FilterElements(s[..n], p);
      var P, F := Positions(s[..n], p), Filter(s[..n], p);
      var Q := P + (if p(s[n]) then [n] else []);
      var G := F + (if p(s[n]) then [s[n]] else []);
      assert Positions(s, p) == Q;
      assert Filter(s, p) == G;
      forall j | 0 <= j < |Q|
        ensures G[j] == s[Q[j]]
      {
        if j < |P| {
          assert G[j] == F[j] == s[..n][P[j]];
        }
      }
    }
  }

  lemma {:induction false} PositionsExactly<T>(s: seq<T>, p: T -> bool)
    ensures forall i :: 0 <= i < |s| ==> (i in Positions(s, p) <==> p(s[i]))
    decreases |s|
  {
    if s != [] {
      var n := |s| - 1;
      PositionsExactly(s[..n], p);
      PositionsBounded(s[..n], p);
      var P := Positions(s[..n], p);
      assert Positions(s, p) == P + (if p(s[n]) then [n] else []);
      forall i | 0 <= i < |s|
        ensures i in Positions(s, p) <==> p(s[i])
      {
        if i < n {
          assert s[..n][i] == s[i];
        } else {
          assert n !in P;
        }
      }
    }
  }

  /** Filtering with a weaker predicate keeps everything a stronger one keeps,
      in the same order. */
  lemma {:induction false} FilterMonotone<T>(s: seq<T>, p: T -> bool, q: T -> bool)
    requires forall i :: 0 <= i < |s| && p(s[i]) ==> q(s[i])
    ensures IsSubseq(Filter(s, p), Filter(s, q))
    decreases |s|
  {
    if s != [] {
      var n := |s| - 1;
      FilterMonotone(s[..n], p, q);
      var A, B := Filter(s[..n], p), Filter(s[..n], q);
      if p(s[n]) {
        assert Filter(s, p) == A + [s[n]] && Filter(s, q) == B + [s[n]];
        assert (A + [s[n]])[..|A|] == A && (B + [s[n]])[..|B|] == B;
      } else if q(s[n]) {
        assert Filter(s, p) == A && Filter(s, q) == B + [s[n]];
        assert (B + [s[n]])[..|B|] == B;
        if A != [] {
          IsSubseqDropLast(A, B, s[n]);
        }
      } else {
        assert Filter(s, p) == A && Filter(s, q) == B;
      }
    }
  }

  lemma IsSubseqDropLast<T>(a: seq<T>, b: seq<T>, x: T)
    requires a != [] && IsSubseq(a, b)
    ensures IsSubseq(a, b + [x])
  {
    assert (b + [x])[..|b|] == b;
  }

  /** Two filters whose predicates never both hold keep at most |s| elements together. */
  lemma {:induction false} FilterExclusiveCount<T>(s: seq<T>, p: T -> bool, q: T -> bool)
    requires forall i :: 0 <= i < |s| ==> !(p(s[i]) && q(s[i]))
    ensures |Filter(s, p)| + |Filter(s, q)| <= |s|
    decreases |s|
  {
    if s != [] {
      var n := |s| - 1;
      FilterExclusiveCount(s[..n], p, q);
    }
  }
}
