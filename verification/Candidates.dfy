/** Pairs of things that are close enough to be the same, ordered by distance: the common first half of
    matching trackables between stages and of merging objects.  */
module Candidates {

  datatype TrackInfo = TrackInfo(distance: real, currentIndex: nat, mergedIndex: nat)

  ghost predicate ByDistance(infos: seq<TrackInfo>) {
    forall a :: 0 <= a < |infos| - 1 ==> infos[a].distance <= infos[a + 1].distance
  }

  lemma {:induction false} Ordered(infos: seq<TrackInfo>, a: nat, b: nat)
    requires ByDistance(infos) && a <= b < |infos|
    ensures infos[a].distance <= infos[b].distance
    decreases b - a
  {
    if a < b {
      Ordered(infos, a, b - 1);
      assert infos[b - 1].distance <= infos[b - 1 + 1].distance;
    }
  }

  ghost predicate WithinSizes(infos: seq<TrackInfo>, n: nat, m: nat) {
    forall k :: 0 <= k < |infos| ==> infos[k].currentIndex < n && infos[k].mergedIndex < m
  }

  ghost predicate Has(infos: seq<TrackInfo>, d: real, i: nat, j: nat) {
    exists k :: 0 <= k < |infos| && infos[k] == TrackInfo(d, i, j)
  }

  /** The candidates are the pairs (i, j) of the given shape within the limit, with their distances. */
  ghost predicate AreCrossPairs(infos: seq<TrackInfo>, n: nat, m: nat, distance: (nat, nat) -> real, limit: real) {
    && (forall k :: 0 <= k < |infos| ==>
          && infos[k].currentIndex < n && infos[k].mergedIndex < m && infos[k].distance <= limit
          && infos[k].distance == distance(infos[k].currentIndex, infos[k].mergedIndex))
    && (forall i: nat, j: nat :: i < n && j < m && distance(i, j) <= limit ==> Has(infos, distance(i, j), i, j))
  }

  ghost predicate AreInnerPairs(infos: seq<TrackInfo>, n: nat, distance: (nat, nat) -> real,
                                close: (nat, nat) -> bool) {
    && (forall k :: 0 <= k < |infos| ==>
          && infos[k].mergedIndex < infos[k].currentIndex < n && close(infos[k].currentIndex, infos[k].mergedIndex)
          && infos[k].distance == distance(infos[k].currentIndex, infos[k].mergedIndex))
    && (forall i: nat, j: nat :: j < i < n && close(i, j) ==> Has(infos, distance(i, j), i, j))
  }

  lemma HasMore(infos: seq<TrackInfo>, t: TrackInfo, d: real, i: nat, j: nat)
    ensures Has(infos, d, i, j) ==> Has(infos + [t], d, i, j)
    ensures Has(infos + [t], t.distance, t.currentIndex, t.mergedIndex)
  {
    assert (infos + [t])[|infos|] == t;
    if k :| 0 <= k < |infos| && infos[k] == TrackInfo(d, i, j) {
      assert (infos + [t])[k] == TrackInfo(d, i, j);
    }
  }

  /** Every pair of a thing of the first kind and one of the second. */
  method CollectCrossPairs(n: nat, m: nat, distance: (nat, nat) -> real, limit: real) returns (infos: seq<TrackInfo>)
    ensures AreCrossPairs(infos, n, m, distance, limit)
  {
    infos := [];
    var i: nat := n;
    while i > 0
      invariant i <= n
      invariant forall k :: 0 <= k < |infos| ==>
        && infos[k].currentIndex < n && infos[k].mergedIndex < m && infos[k].distance <= limit
        && infos[k].distance == distance(infos[k].currentIndex, infos[k].mergedIndex)
      invariant forall a: nat, b: nat :: i <= a < n && b < m && distance(a, b) <= limit ==>
        Has(infos, distance(a, b), a, b)
    {
      i := i - 1;
      var j: nat := m;
      while j > 0
        invariant j <= m && i < n
        invariant forall k :: 0 <= k < |infos| ==>
          && infos[k].currentIndex < n && infos[k].mergedIndex < m && infos[k].distance <= limit
          && infos[k].distance == distance(infos[k].currentIndex, infos[k].mergedIndex)
        invariant forall a: nat, b: nat :: i < a < n && b < m && distance(a, b) <= limit ==>
          Has(infos, distance(a, b), a, b)
        invariant forall b: nat :: j <= b < m && distance(i, b) <= limit ==> Has(infos, distance(i, b), i, b)
      {
        j := j - 1;
        var d := distance(i, j);
        if d <= limit {
          forall a: nat, b: nat
            ensures Has(infos, distance(a, b), a, b) ==> Has(infos + [TrackInfo(d, i, j)], distance(a, b), a, b)
          {
            HasMore(infos, TrackInfo(d, i, j), distance(a, b), a, b);
          }
          HasMore(infos, TrackInfo(d, i, j), d, i, j);
          infos := infos + [TrackInfo(d, i, j)];
        }
      }
    }
  }

  /** Every unordered pair of things of one kind, the higher index first. */
  method CollectInnerPairs(n: nat, distance: (nat, nat) -> real, close: (nat, nat) -> bool)
    returns (infos: seq<TrackInfo>)
    ensures AreInnerPairs(infos, n, distance, close)
  {
    infos := [];
    var i: nat := n;
    while i > 1
      invariant i <= n
      invariant forall k :: 0 <= k < |infos| ==>
        && infos[k].mergedIndex < infos[k].currentIndex < n && close(infos[k].currentIndex, infos[k].mergedIndex)
        && infos[k].distance == distance(infos[k].currentIndex, infos[k].mergedIndex)
      invariant forall a: nat, b: nat :: i <= a < n && b < a && close(a, b) ==> Has(infos, distance(a, b), a, b)
    {
      i := i - 1;
      var j: nat := i;
      while j > 0
        invariant j <= i < n
        invariant forall k :: 0 <= k < |infos| ==>
          && infos[k].mergedIndex < infos[k].currentIndex < n && close(infos[k].currentIndex, infos[k].mergedIndex)
          && infos[k].distance == distance(infos[k].currentIndex, infos[k].mergedIndex)
        invariant forall a: nat, b: nat :: i < a < n && b < a && close(a, b) ==> Has(infos, distance(a, b), a, b)
        invariant forall b: nat :: j <= b < i && close(i, b) ==> Has(infos, distance(i, b), i, b)
      {
        j := j - 1;
        if close(i, j) {
          var t := TrackInfo(distance(i, j), i, j);
          forall a: nat, b: nat ensures Has(infos, distance(a, b), a, b) ==> Has(infos + [t], distance(a, b), a, b) {
            HasMore(infos, t, distance(a, b), a, b);
          }
          HasMore(infos, t, t.distance, i, j);
          infos := infos + [t];
        }
      }
    }
  }

  /** Sorting by distance; pairs at equal distances come in any order. */
  method SortByDistance(infos: seq<TrackInfo>) returns (sorted: seq<TrackInfo>)
    ensures ByDistance(sorted) && multiset(sorted) == multiset(infos)
  {
    hide ByDistance;
    NothingToSort();
    sorted := [];
    var i := 0;
    while i < |infos|
      invariant 0 <= i <= |infos| && ByDistance(sorted) && multiset(sorted) == multiset(infos[..i])
    {
      var k := 0;
      while k < |sorted| && sorted[k].distance <= infos[i].distance
        invariant 0 <= k <= |sorted|
        invariant k > 0 ==> sorted[k - 1].distance <= infos[i].distance
      {
        k := k + 1;
      }
      Inserted(sorted, k, infos[i]);
      InsertedNext(infos, i, sorted, k);
      sorted := sorted[..k] + [infos[i]] + sorted[k..];
      i := i + 1;
    }
    assert infos[..i] == infos;
  }

  lemma InsertedNext(infos: seq<TrackInfo>, i: nat, sorted: seq<TrackInfo>, k: nat)
    requires i < |infos| && k <= |sorted| && multiset(sorted) == multiset(infos[..i])
    ensures multiset(sorted[..k] + [infos[i]] + sorted[k..]) == multiset(infos[..i + 1])
  {
    InsertedMembers(sorted, k, infos[i]);
    assert infos[..i + 1] == infos[..i] + [infos[i]];
  }

  lemma NothingToSort()
    ensures ByDistance([])
  {
  }

  lemma Inserted(s: seq<TrackInfo>, k: nat, x: TrackInfo)
    requires ByDistance(s) && k <= |s|
    requires k > 0 ==> s[k - 1].distance <= x.distance
    requires k < |s| ==> x.distance <= s[k].distance
    ensures ByDistance(s[..k] + [x] + s[k..])
  {
    var w := s[..k] + [x] + s[k..];
    forall a | 0 <= a < |w| - 1 ensures w[a].distance <= w[a + 1].distance {
      if a + 1 < k {
        assert s[a].distance <= s[a + 1].distance;
      } else if a > k {
        assert w[a] == s[a - 1] && w[a + 1] == s[a];
        assert s[a - 1].distance <= s[a - 1 + 1].distance;
      }
    }
  }

  lemma InsertedMembers(s: seq<TrackInfo>, k: nat, x: TrackInfo)
    requires k <= |s|
    ensures multiset(s[..k] + [x] + s[k..]) == multiset(s) + multiset{x}
  {
    assert s[..k] + s[k..] == s;
  }

  lemma SortingKeepsMembers(infos: seq<TrackInfo>, sorted: seq<TrackInfo>)
    requires multiset(sorted) == multiset(infos)
    ensures forall k :: 0 <= k < |sorted| ==> exists l :: 0 <= l < |infos| && infos[l] == sorted[k]
    ensures forall d, i, j :: Has(infos, d, i, j) ==> Has(sorted, d, i, j)
  {
    forall k | 0 <= k < |sorted| ensures exists l :: 0 <= l < |infos| && infos[l] == sorted[k] {
      assert sorted[k] in multiset(sorted);
      assert sorted[k] in infos;
    }
    forall d, i, j | Has(infos, d, i, j) ensures Has(sorted, d, i, j) {
      assert TrackInfo(d, i, j) in multiset(infos);
      assert TrackInfo(d, i, j) in sorted;
    }
  }

  lemma SortedInnerPairs(infos: seq<TrackInfo>, sorted: seq<TrackInfo>, n: nat, distance: (nat, nat) -> real,
                         close: (nat, nat) -> bool)
    requires AreInnerPairs(infos, n, distance, close) && multiset(sorted) == multiset(infos)
    ensures AreInnerPairs(sorted, n, distance, close)
  {
    SortingKeepsMembers(infos, sorted);
  }

  lemma SortedCrossPairs(infos: seq<TrackInfo>, sorted: seq<TrackInfo>, n: nat, m: nat, distance: (nat, nat) -> real,
                         limit: real)
    requires AreCrossPairs(infos, n, m, distance, limit) && multiset(sorted) == multiset(infos)
    ensures AreCrossPairs(sorted, n, m, distance, limit)
  {
    SortingKeepsMembers(infos, sorted);
  }
}
