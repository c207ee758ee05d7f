/** A stable sort in descending order of a key, as used for ranking results,
    expressed on positions: the result lists
    the positions 0..n-1 by non-increasing key, and positions whose keys are equal
    keep their original (ascending) order, because Python's sort is stable even
    with reverse=True.  The BM25 search, rank fusion and re-ranking all sort this
    way. */
module Ranking {

  /** Position a comes before position b in a stable descending sort. */
  predicate Precedes(keys: seq<real>, a: nat, b: nat)
    requires a < |keys| && b < |keys|
  {
    keys[a] > keys[b] || (keys[a] == keys[b] && a < b)
  }

  predicate InRange(keys: seq<real>, p: seq<nat>)
  {
    forall j :: 0 <= j < |p| ==> p[j] < |keys|
  }

  predicate Sorted(keys: seq<real>, p: seq<nat>)
    requires InRange(keys, p)
  {
    forall a, b :: 0 <= a < b < |p| ==> Precedes(keys, p[a], p[b])
  }

  /** The independent description of a stable descending sort of 0..n-1: every
      position exactly once, in the order Precedes fixes. */
  predicate IsRanking(keys: seq<real>, p: seq<nat>)
  {
    && |p| == |keys|
    && InRange(keys, p)
    && (forall d: nat :: d < |keys| ==> d in p)
    && Sorted(keys, p)
  }

  /** One insertion step: position i goes after every position whose key is at
      least keys[i]. */
  function Insert(keys: seq<real>, p: seq<nat>, i: nat): seq<nat>
    requires i < |keys| && InRange(keys, p)
  {
    if p == [] then [i]
    else if keys[p[|p| - 1]] >= keys[i] then p + [i]
    else Insert(keys, p[..|p| - 1], i) + [p[|p| - 1]]
  }

  function SortFirst(keys: seq<real>, n: nat): (p: seq<nat>)
    requires n <= |keys|
    ensures InRange(keys, p)
  {
    if n == 0 then []
    else
      var q := SortFirst(keys, n - 1);
      InsertInRange(keys, q, n - 1);
      Insert(keys, q, n - 1)
  }

  /** The stable descending order of the positions of keys. */
  function Order(keys: seq<real>): (p: seq<nat>)
    ensures InRange(keys, p)
  {
    SortFirst(keys, |keys|)
  }

  /** xs rearranged by the positions p. */
  function Arrange<T>(xs: seq<T>, p: seq<nat>): (r: seq<T>)
    requires forall j :: 0 <= j < |p| ==> p[j] < |xs|
    ensures |r| == |p|
    ensures forall j :: 0 <= j < |p| ==> r[j] == xs[p[j]]
  {
    seq(|p|, j requires 0 <= j < |p| => xs[p[j]])
  }

  lemma {:induction false} InsertInRange(keys: seq<real>, p: seq<nat>, i: nat)
    requires i < |keys| && InRange(keys, p)
    ensures InRange(keys, Insert(keys, p, i))
    ensures |Insert(keys, p, i)| == |p| + 1
    ensures forall x :: x in Insert(keys, p, i) <==> x in p || x == i
  {
    if p != [] && keys[p[|p| - 1]] < keys[i] {
      var init := p[..|p| - 1];
      InsertInRange(keys, init, i);
      assert p == init + [p[|p| - 1]];
    }
  }

  lemma {:induction false} InsertSorted(keys: seq<real>, p: seq<nat>, i: nat)
    requires i < |keys| && InRange(keys, p)
    requires forall j :: 0 <= j < |p| ==> p[j] < i
    requires Sorted(keys, p)
    ensures InRange(keys, Insert(keys, p, i)) && Sorted(keys, Insert(keys, p, i))
  {
    InsertInRange(keys, p, i);
    if p == [] {
    } else if keys[p[|p| - 1]] >= keys[i] {
      var r := p + [i];
      forall a, b | 0 <= a < b < |r| ensures Precedes(keys, r[a], r[b]) {
        if b == |p| && a < |p| - 1 {
          assert Precedes(keys, p[a], p[|p| - 1]);
        }
      }
    } else {
      var init, last := p[..|p| - 1], p[|p| - 1];
      InsertSorted(keys, init, i);
      InsertInRange(keys, init, i);
      var q := Insert(keys, init, i);
      var r := q + [last];
      forall a, b | 0 <= a < b < |r| ensures Precedes(keys, r[a], r[b]) {
        if b == |q| {
          assert q[a] in q;
          if q[a] != i {
            var j :| 0 <= j < |init| && init[j] == q[a];
            assert Precedes(keys, p[j], p[|p| - 1]);
          }
        }
      }
    }
  }

  lemma {:induction false} SortFirstMembers(keys: seq<real>, n: nat)
    requires n <= |keys|
    ensures |SortFirst(keys, n)| == n
    ensures forall d: nat :: d in SortFirst(keys, n) <==> d < n
  {
    if n > 0 {
      var q := SortFirst(keys, n - 1);
      SortFirstMembers(keys, n - 1);
      InsertInRange(keys, q, n - 1);
    }
  }

  lemma {:induction false} SortFirstSorted(keys: seq<real>, n: nat)
    requires n <= |keys|
    ensures Sorted(keys, SortFirst(keys, n))
  {
    if n > 0 {
      var q := SortFirst(keys, n - 1);
      SortFirstSorted(keys, n - 1);
      SortFirstMembers(keys, n - 1);
      forall j | 0 <= j < |q| ensures q[j] < n - 1 {
        assert q[j] in q;
      }
      InsertSorted(keys, q, n - 1);
    }
  }

  /** Order really is the stable descending sort. */
  lemma OrderIsRanking(keys: seq<real>)
    ensures IsRanking(keys, Order(keys))
  {
    SortFirstMembers(keys, |keys|);
    SortFirstSorted(keys, |keys|);
  }

  /** A sorted ranking lists no position twice. */
  lemma RankingDistinct(keys: seq<real>, p: seq<nat>)
    requires IsRanking(keys, p)
    ensures forall a, b :: 0 <= a < b < |p| ==> p[a] != p[b]
  {
    forall a, b | 0 <= a < b < |p| ensures p[a] != p[b] {
      assert Precedes(keys, p[a], p[b]);
    }
  }

  /** A key sequence that never increases is already in order: the sort is
      the identity, equal keys included. */
  lemma {:induction false} OrderOfNonIncreasing(keys: seq<real>)
    requires forall a, b :: 0 <= a < b < |keys| ==> keys[a] >= keys[b]
    ensures Order(keys) == seq(|keys|, j => j)
  {
    SortFirstOfNonIncreasing(keys, |keys|);
  }

  lemma {:induction false} SortFirstOfNonIncreasing(keys: seq<real>, n: nat)
    requires n <= |keys|
    requires forall a, b :: 0 <= a < b < |keys| ==> keys[a] >= keys[b]
    ensures SortFirst(keys, n) == seq(n, j => j)
  {
    if n > 0 {
      SortFirstOfNonIncreasing(keys, n - 1);
      var q := SortFirst(keys, n - 1);
      if n > 1 {
        assert q[|q| - 1] == n - 2;
      }
      assert seq(n, j => j) == q + [n - 1];
    }
  }

  /** Every position missing from the first m+1 entries of a ranking comes
      after the entry at m: its key is smaller, or equal and it is later. */
  lemma RankingPrefixDominates(keys: seq<real>, p: seq<nat>, m: nat, d: nat)
    requires IsRanking(keys, p)
    requires m < |p| && d < |keys| && d !in p[..m + 1]
    ensures Precedes(keys, p[m], d)
  {
    assert d in p;
    var j :| 0 <= j < |p| && p[j] == d;
    if j > m {
      assert Precedes(keys, p[m], p[j]);
    }
  }
}
