/** The union forest that merges close objects: candidates are taken by increasing distance, and a pair is
    linked as long as one of its two members is still unassigned.  `mixedIndex[x]` is the parent of x, or
    negative for a root.  */
module UnionForest {
  import opened Candidates
  import opened Common

  /** What a forest looks like from outside: the root of every node, and heights that strictly increase
      towards the roots. */
  datatype Shape = Shape(root: seq<nat>, height: seq<nat>, top: nat)

  ghost predicate Forest(m: seq<int>, s: Shape) {
    && |s.root| == |m| == |s.height|
    && (forall x :: 0 <= x < |m| ==> m[x] < |m| && s.height[x] <= s.top)
    && (forall x :: 0 <= x < |m| ==> s.root[x] < |m| && m[s.root[x]] < 0)
    && (forall x :: 0 <= x < |m| && m[x] < 0 ==> s.root[x] == x)
    && (forall x :: 0 <= x < |m| && m[x] >= 0 ==> s.root[m[x]] == s.root[x] && s.height[x] < s.height[m[x]])
  }

  /** The walk to the root as the program does it: it ends because heights increase. */
  ghost function RootOf(m: seq<int>, s: Shape, x: nat): (r: nat)
    requires Forest(m, s) && x < |m|
    ensures r == s.root[x]
    decreases s.top - s.height[x]
  {
    if m[x] < 0 then x else RootOf(m, s, m[x])
  }

  ghost function SelfRoots(n: nat): Shape {
    Shape(seq(n, i requires 0 <= i < n => i), seq(n, _ => 0), 0)
  }

  ghost function Max(a: nat, b: nat): nat {
    if a < b then b else a
  }

  /** The forest after root c has been linked under root r. */
  ghost function Linked(s: Shape, c: nat, r: nat): Shape
    requires |s.height| == |s.root| && c < |s.root| && r < |s.root|
  {
    Shape(seq(|s.root|, x requires 0 <= x < |s.root| => if s.root[x] == c then r else s.root[x]),
          s.height[r := Max(s.height[r], s.height[c] + 1)], s.top + 1)
  }

  lemma LinkKeepsForest(m: seq<int>, s: Shape, c: nat, r: nat)
    requires Forest(m, s) && c < |m| && r < |m| && c != r && m[c] < 0 && m[r] < 0
    ensures Forest(m[c := r], Linked(s, c, r))
  {
  }

  // ---- what a link means ----

  predicate BothAssigned(m: seq<int>, t: TrackInfo)
    requires t.currentIndex < |m| && t.mergedIndex < |m|
  {
    m[t.currentIndex] >= 0 && m[t.mergedIndex] >= 0
  }

  /** The member that gets linked: the one of the pair that is unassigned. */
  function Child(m: seq<int>, t: TrackInfo): nat
    requires t.currentIndex < |m| && t.mergedIndex < |m|
  {
    if m[t.mergedIndex] < 0 then t.mergedIndex else t.currentIndex
  }

  function Partner(m: seq<int>, t: TrackInfo): nat
    requires t.currentIndex < |m| && t.mergedIndex < |m|
  {
    if m[t.mergedIndex] < 0 then t.currentIndex else t.mergedIndex
  }

  /** What taking one candidate does to the forest: nothing if both members are assigned or in one tree
      already, else the unassigned member goes under the root of the other. */
  ghost predicate Takes(m: seq<int>, s: Shape, t: TrackInfo, link: Option<(nat, nat)>, m': seq<int>, s': Shape) {
    && Forest(m, s) && t.currentIndex < |m| && t.mergedIndex < |m|
    && if BothAssigned(m, t) || s.root[Partner(m, t)] == Child(m, t)
       then link == None && s' == s && m' == m
       else
         var c, r := Child(m, t), s.root[Partner(m, t)];
         link == Some((c, r)) && m' == m[c := r] && s' == Linked(s, c, r)
  }

  lemma TakingLinksRoots(m: seq<int>, s: Shape, t: TrackInfo, link: Option<(nat, nat)>, m': seq<int>, s': Shape)
    requires Takes(m, s, t, link, m', s')
    ensures |m'| == |m|
    ensures link.Some? ==> var (c, r) := link.value;
      c < |m| && r < |m| && m[c] < 0 && m[r] < 0 && c != r && m' == m[c := r]
    ensures link.None? ==> m' == m
  {
  }

  lemma TakingKeepsForest(m: seq<int>, s: Shape, t: TrackInfo, link: Option<(nat, nat)>, m': seq<int>, s': Shape)
    requires Takes(m, s, t, link, m', s')
    ensures Forest(m', s')
  {
    if link.Some? {
      LinkKeepsForest(m, s, link.value.0, link.value.1);
    }
  }

  lemma TakingKeepsChains(infos: seq<TrackInfo>, m: seq<int>, s: Shape, t: TrackInfo, link: Option<(nat, nat)>,
                          m': seq<int>, s': Shape)
    requires Takes(m, s, t, link, m', s') && t in infos && RootsChained(infos, s)
    ensures RootsChained(infos, s')
  {
    if link.Some? {
      LinkKeepsChains(infos, m, s, t);
    }
  }

  lemma TakingSettles(infos: seq<TrackInfo>, k: nat, m: seq<int>, s: Shape, link: Option<(nat, nat)>, m': seq<int>,
                      s': Shape)
    requires k < |infos| && WithinSizes(infos, |m|, |m|) && infos[k].currentIndex != infos[k].mergedIndex
    requires Takes(m, s, infos[k], link, m', s') && Settled(infos, k, m)
    ensures |m'| == |m| && Settled(infos, k + 1, m')
  {
    TakingLinksRoots(m, s, infos[k], link, m', s');
  }

  /** One candidate taken from the sorted list. */
  method LinkCandidate(mixedIndex: array<int>, t: TrackInfo, ghost s: Shape)
    returns (link: Option<(nat, nat)>, ghost s': Shape)
    requires Forest(mixedIndex[..], s)
    requires t.currentIndex < mixedIndex.Length && t.mergedIndex < mixedIndex.Length
    modifies mixedIndex
    ensures Takes(old(mixedIndex[..]), s, t, link, mixedIndex[..], s')
  {
    link, s' := None, s;
    ghost var m := mixedIndex[..];
    if mixedIndex[t.currentIndex] < 0 || mixedIndex[t.mergedIndex] < 0 {
      var mergedIndex := t.mergedIndex;
      var currentIndex := t.currentIndex;
      if mixedIndex[mergedIndex] < 0 {
        mergedIndex, currentIndex := currentIndex, mergedIndex;
      }
      while mixedIndex[mergedIndex] >= 0
        invariant 0 <= mergedIndex < mixedIndex.Length && s.root[mergedIndex] == s.root[Partner(m, t)]
        invariant mixedIndex[..] == m
        decreases s.top - s.height[mergedIndex]
      {
        mergedIndex := mixedIndex[mergedIndex];
      }
      if mergedIndex != currentIndex {
        mixedIndex[currentIndex] := mergedIndex;
        link, s' := Some((currentIndex, mergedIndex)), Linked(s, currentIndex, mergedIndex);
      }
    }
  }

  // ---- chains of candidates ----

  ghost predicate Adjacent(infos: seq<TrackInfo>, x: nat, y: nat) {
    exists k :: 0 <= k < |infos| &&
      ((infos[k].currentIndex == x && infos[k].mergedIndex == y) ||
       (infos[k].currentIndex == y && infos[k].mergedIndex == x))
  }

  ghost predicate IsChain(infos: seq<TrackInfo>, p: seq<nat>) {
    |p| > 0 && forall k :: 0 <= k < |p| - 1 ==> Adjacent(infos, p[k], p[k + 1])
  }

  ghost predicate Chained(infos: seq<TrackInfo>, x: nat, y: nat) {
    exists p :: IsChain(infos, p) && p[0] == x && p[|p| - 1] == y
  }

  lemma ChainedToSelf(infos: seq<TrackInfo>, x: nat)
    ensures Chained(infos, x, x)
  {
    var p: seq<nat> := [x];
    assert IsChain(infos, p);
  }

  lemma ChainedByStep(infos: seq<TrackInfo>, x: nat, y: nat)
    requires Adjacent(infos, x, y)
    ensures Chained(infos, x, y)
  {
    var p: seq<nat> := [x, y];
    assert IsChain(infos, p);
  }

  lemma ChainedOn(infos: seq<TrackInfo>, x: nat, y: nat, z: nat)
    requires Chained(infos, x, y) && Chained(infos, y, z)
    ensures Chained(infos, x, z)
  {
    var p :| IsChain(infos, p) && p[0] == x && p[|p| - 1] == y;
    var q :| IsChain(infos, q) && q[0] == y && q[|q| - 1] == z;
    var w := p + q[1..];
    forall k | 0 <= k < |w| - 1 ensures Adjacent(infos, w[k], w[k + 1]) {
      if k < |p| - 1 {
        assert Adjacent(infos, p[k], p[k + 1]);
      } else {
        assert w[k] == q[k - |p| + 1] && w[k + 1] == q[k - |p| + 2];
      }
    }
    assert IsChain(infos, w);
  }

  lemma ChainedBack(infos: seq<TrackInfo>, x: nat, y: nat)
    requires Chained(infos, x, y)
    ensures Chained(infos, y, x)
  {
    var p :| IsChain(infos, p) && p[0] == x && p[|p| - 1] == y;
    var w := seq(|p|, i requires 0 <= i < |p| => p[|p| - 1 - i]);
    forall k | 0 <= k < |w| - 1 ensures Adjacent(infos, w[k], w[k + 1]) {
      assert Adjacent(infos, p[|p| - 2 - k], p[|p| - 1 - k]);
    }
    assert IsChain(infos, w);
  }

  ghost predicate RootsChained(infos: seq<TrackInfo>, s: Shape) {
    forall x :: 0 <= x < |s.root| ==> Chained(infos, x, s.root[x])
  }

  lemma LinkKeepsChains(infos: seq<TrackInfo>, m: seq<int>, s: Shape, t: TrackInfo)
    requires Forest(m, s) && RootsChained(infos, s)
    requires t in infos && t.currentIndex < |m| && t.mergedIndex < |m| && m[Child(m, t)] < 0
    ensures RootsChained(infos, Linked(s, Child(m, t), s.root[Partner(m, t)]))
  {
    var c, a := Child(m, t), Partner(m, t);
    var k :| 0 <= k < |infos| && infos[k] == t;
    assert Adjacent(infos, c, a);
    ChainedByStep(infos, c, a);
    ChainedOn(infos, c, a, s.root[a]);
    var s' := Linked(s, c, s.root[a]);
    forall x | 0 <= x < |s'.root| ensures Chained(infos, x, s'.root[x]) {
      if s.root[x] == c {
        ChainedOn(infos, x, c, s.root[a]);
      }
    }
  }

  /** No candidate among the first k joins two roots. */
  ghost predicate Settled(infos: seq<TrackInfo>, k: nat, m: seq<int>)
    requires k <= |infos| && WithinSizes(infos, |m|, |m|)
  {
    forall i :: 0 <= i < k ==> m[infos[i].currentIndex] >= 0 || m[infos[i].mergedIndex] >= 0
  }

  /** Two nodes of one tree are joined by a chain of candidate pairs. */
  lemma TreesAreChained(infos: seq<TrackInfo>, s: Shape, x: nat, y: nat)
    requires RootsChained(infos, s) && x < |s.root| && y < |s.root| && s.root[x] == s.root[y]
    ensures Chained(infos, x, y)
  {
    ChainedBack(infos, y, s.root[y]);
    ChainedOn(infos, x, s.root[x], y);
  }

  /** Two roots are farther apart than the limit. */
  lemma RootsAreSeparated(infos: seq<TrackInfo>, m: seq<int>, distance: (nat, nat) -> real, close: (nat, nat) -> bool,
                          i: nat, j: nat)
    requires AreInnerPairs(infos, |m|, distance, close) && Settled(infos, |infos|, m)
    requires j < i < |m| && m[i] < 0 && m[j] < 0
    ensures !close(i, j)
  {
    assert close(i, j) ==> Has(infos, distance(i, j), i, j);
  }

  // ---- what is close ends in one tree ----

  /** Of every candidate looked at so far both members are in one tree, or both hang under another node. */
  ghost predicate Joined(infos: seq<TrackInfo>, k: nat, m: seq<int>, s: Shape)
    requires k <= |infos| && WithinSizes(infos, |m|, |m|) && |s.root| == |m|
  {
    forall i :: 0 <= i < k ==>
      s.root[infos[i].currentIndex] == s.root[infos[i].mergedIndex] ||
      (m[infos[i].currentIndex] >= 0 && m[infos[i].mergedIndex] >= 0)
  }

  lemma TakingJoins(infos: seq<TrackInfo>, k: nat, m: seq<int>, s: Shape, link: Option<(nat, nat)>, m': seq<int>,
                    s': Shape)
    requires k < |infos| && WithinSizes(infos, |m|, |m|) && Takes(m, s, infos[k], link, m', s')
    requires |s.root| == |m| && Joined(infos, k, m, s)
    ensures |m'| == |m| == |s'.root| && Joined(infos, k + 1, m', s')
  {
  }

  /** Two close nodes are in one tree, or both hang under another node. */
  lemma CloseAreJoined(infos: seq<TrackInfo>, m: seq<int>, s: Shape, distance: (nat, nat) -> real,
                       close: (nat, nat) -> bool)
    requires AreInnerPairs(infos, |m|, distance, close) && WithinSizes(infos, |m|, |m|) && |s.root| == |m|
    requires Joined(infos, |infos|, m, s)
    ensures forall i: nat, j: nat :: j < i < |m| && close(i, j) ==> s.root[i] == s.root[j] || (m[i] >= 0 && m[j] >= 0)
  {
    forall i: nat, j: nat | j < i < |m| && close(i, j)
      ensures s.root[i] == s.root[j] || (m[i] >= 0 && m[j] >= 0)
    {
      assert Has(infos, distance(i, j), i, j);
    }
  }
}
