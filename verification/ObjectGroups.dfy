/** Merging the objects detected by several sensors: close objects are linked into groups, and one trackable
    is created for each group, or for each part of it when the group is too large.  */
module ObjectGroups {
  import opened Common
  import opened Candidates
  import opened UnionForest
  import opened ObjectSplit
  import opened ObjectSizes

  // ---- grouping ----

  /** The group of x is x and the objects linked directly under it. */
  ghost predicate GroupOk(m: seq<int>, x: nat, g: seq<nat>)
    requires x < |m|
  {
    && g != [] && g[0] == x
    && (forall c: nat :: c in g <==> c == x || (c < |m| && m[c] == x))
    && (forall i, j :: 0 <= i < j < |g| ==> g[i] != g[j])
  }

  ghost predicate GroupsOk(m: seq<int>, groups: seq<seq<nat>>) {
    |groups| == |m| && forall x :: 0 <= x < |m| ==> GroupOk(m, x, groups[x])
  }

  lemma LinkKeepsGroups(m: seq<int>, groups: seq<seq<nat>>, c: nat, r: nat)
    requires GroupsOk(m, groups) && c < |m| && r < |m| && c != r && m[c] < 0
    ensures GroupsOk(m[c := r], groups[r := groups[r] + [c]])
  {
    var m', groups' := m[c := r], groups[r := groups[r] + [c]];
    forall x | 0 <= x < |m| ensures GroupOk(m', x, groups'[x]) {
      assert GroupOk(m, x, groups[x]);
    }
  }

  /** The state of the grouping loop. */
  datatype Grouping = Grouping(m: seq<int>, s: Shape, groups: seq<seq<nat>>)

  ghost function Ungrouped(n: nat): Grouping {
    Grouping(seq(n, _ => -1), SelfRoots(n), seq(n, x requires 0 <= x < n => [x]))
  }

  ghost predicate Takable(g: Grouping, t: TrackInfo) {
    Forest(g.m, g.s) && |g.groups| == |g.m| && t.currentIndex < |g.m| && t.mergedIndex < |g.m|
  }

  /** One candidate taken: the unassigned member of the pair joins the group of the root of the other. */
  ghost function Taken(g: Grouping, t: TrackInfo): (r: Grouping)
    requires Takable(g, t)
    ensures Forest(r.m, r.s) && |r.groups| == |r.m| == |g.m|
  {
    if BothAssigned(g.m, t) || g.s.root[Partner(g.m, t)] == Child(g.m, t) then g
    else
      var c, r := Child(g.m, t), g.s.root[Partner(g.m, t)];
      LinkKeepsForest(g.m, g.s, c, r);
      Grouping(g.m[c := r], Linked(g.s, c, r), g.groups[r := g.groups[r] + [c]])
  }

  ghost predicate InnerPairs(infos: seq<TrackInfo>, n: nat) {
    forall k :: 0 <= k < |infos| ==> infos[k].mergedIndex < infos[k].currentIndex < n
  }

  /** The first k candidates taken in turn. */
  ghost function TakenAll(n: nat, infos: seq<TrackInfo>, k: nat): (r: Grouping)
    requires k <= |infos| && InnerPairs(infos, n)
    ensures Forest(r.m, r.s) && |r.groups| == |r.m| == n
  {
    if k == 0 then Ungrouped(n) else Taken(TakenAll(n, infos, k - 1), infos[k - 1])
  }

  lemma TakesIsTaken(g: Grouping, t: TrackInfo, link: Option<(nat, nat)>, m': seq<int>, s': Shape)
    requires Takes(g.m, g.s, t, link, m', s') && |g.groups| == |g.m|
    ensures link.None? ==> Taken(g, t) == Grouping(m', s', g.groups)
    ensures link.Some? ==> var (c, r) := link.value;
      r < |g.groups| && Taken(g, t) == Grouping(m', s', g.groups[r := g.groups[r] + [c]])
  {
  }

  lemma TakenIsTaking(g: Grouping, t: TrackInfo) returns (link: Option<(nat, nat)>)
    requires Takable(g, t)
    ensures Takes(g.m, g.s, t, link, Taken(g, t).m, Taken(g, t).s)
  {
    RootsAreNodes(g.m, g.s);
    hide Forest, Linked;
    if BothAssigned(g.m, t) || g.s.root[Partner(g.m, t)] == Child(g.m, t) {
      return None;
    }
    return Some((Child(g.m, t), g.s.root[Partner(g.m, t)]));
  }

  /** Every object a root with a group of its own. */
  method StartGroups(n: nat) returns (mixedIndex: array<int>, groups: seq<seq<nat>>)
    ensures fresh(mixedIndex) && mixedIndex.Length == n && Forest(mixedIndex[..], SelfRoots(n)) &&
      GroupsOk(mixedIndex[..], groups)
    ensures forall x :: 0 <= x < n ==> mixedIndex[x] == -1 && groups[x] == [x]
  {
    mixedIndex := new int[n];
    groups := seq(n, _ => []);
    var i := n;
    while i > 0
      invariant 0 <= i <= n && |groups| == n
      invariant forall x :: 0 <= x < i ==> groups[x] == []
      invariant forall x :: i <= x < n ==> mixedIndex[x] == -1 && groups[x] == [x]
    {
      i := i - 1;
      mixedIndex[i] := -1;
      groups := groups[i := groups[i] + [i]];
    }
  }

  /** Groups objects by closeness and leaves the forest it built. */
  method GroupObjects(n: nat, infos: seq<TrackInfo>)
    returns (mixedIndex: array<int>, groups: seq<seq<nat>>, ghost s: Shape)
    requires InnerPairs(infos, n)
    ensures fresh(mixedIndex) && mixedIndex.Length == n && Forest(mixedIndex[..], s) && RootsChained(infos, s)
    ensures WithinSizes(infos, n, n) && Settled(infos, |infos|, mixedIndex[..]) && GroupsOk(mixedIndex[..], groups)
    ensures TakenAll(n, infos, |infos|) == Grouping(mixedIndex[..], s, groups)
  {
    hide Forest, Takes, RootsChained, Settled, GroupsOk, WithinSizes, SelfRoots, Taken;
    mixedIndex, groups := StartGroups(n);
    s := SelfRoots(n);
    var i := 0;
    assert mixedIndex[..] == Ungrouped(n).m && groups == Ungrouped(n).groups;
    hide Ungrouped;
    while i < |infos|
      invariant 0 <= i <= |infos| && |groups| == n && TakenAll(n, infos, i) == Grouping(mixedIndex[..], s, groups)
    {
      ghost var m := mixedIndex[..];
      var t := infos[i];
      var link, s' := LinkCandidate(mixedIndex, t, s);
      TakesIsTaken(Grouping(m, s, groups), t, link, mixedIndex[..], s');
      if link.Some? {
        var (c, r) := link.value;
        groups := groups[r := groups[r] + [c]];
      }
      s := s';
      i := i + 1;
    }
    TakenGroupsAreOk(n, infos, i);
    TakenAreJoined(n, infos, i);
  }

  lemma SelfRootsAreChained(infos: seq<TrackInfo>, n: nat)
    ensures RootsChained(infos, SelfRoots(n))
  {
    forall x: nat | x < n ensures Chained(infos, x, x) {
      ChainedToSelf(infos, x);
    }
  }

  // ---- what is emitted ----

  /** The groups of the roots, from the last object down to the i-th. */
  ghost function Emitted(m: seq<int>, groups: seq<seq<nat>>, i: nat): seq<seq<nat>>
    requires i <= |m| == |groups|
    decreases |m| - i
  {
    if i == |m| then [] else Emitted(m, groups, i + 1) + if m[i] < 0 then [groups[i]] else []
  }

  /** The only group an object can be emitted with: its own if it is a root, else its parent's. */
  ghost function Host(m: seq<int>, x: nat): int
    requires x < |m|
  {
    if m[x] < 0 then x else m[x]
  }

  lemma {:induction false} CountOnce(g: seq<nat>, x: nat)
    requires forall i, j :: 0 <= i < j < |g| ==> g[i] != g[j]
    ensures multiset(g)[x] == if x in g then 1 else 0
  {
    if g != [] {
      var front, last := g[..|g| - 1], g[|g| - 1];
      assert g == front + [last];
      CountOnce(front, x);
      assert last !in front;
    }
  }

  /** An object is emitted at most once, and it is emitted iff it is a root or its parent is one. */
  lemma {:induction false} EmittedCounts(m: seq<int>, groups: seq<seq<nat>>, s: Shape, i: nat, x: nat)
    requires Forest(m, s) && GroupsOk(m, groups) && i <= |m|
    ensures Bag(Emitted(m, groups, i))[x] ==
      if x < |m| && i <= Host(m, x) && m[Host(m, x)] < 0 then 1 else 0
    decreases |m| - i
  {
    hide Bag;
    if i < |m| {
      EmittedCounts(m, groups, s, i + 1, x);
      if m[i] < 0 {
        BagConcat(Emitted(m, groups, i + 1), [groups[i]]);
        BagOfOne(groups[i]);
        GroupCounts(m, i, groups[i], x);
      } else {
        assert Emitted(m, groups, i + 1) + [] == Emitted(m, groups, i + 1);
      }
    } else {
      BagOfNothing();
    }
  }

  lemma BagOfNothing()
    ensures Bag([]) == multiset{}
  {
  }

  lemma GroupCounts(m: seq<int>, r: nat, g: seq<nat>, x: nat)
    requires r < |m| && m[r] < 0 && GroupOk(m, r, g)
    ensures multiset(g)[x] == if x < |m| && Host(m, x) == r then 1 else 0
  {
    CountOnce(g, x);
  }

  /** Two emitted groups share no object, and a root's group is the root with everything linked to it. */
  lemma GroupsAreDisjoint(m: seq<int>, groups: seq<seq<nat>>, r: nat, q: nat, x: nat)
    requires GroupsOk(m, groups) && r < |m| && q < |m| && m[r] < 0 && m[q] < 0
    ensures x in groups[r] <==> x == r || (x < |m| && m[x] == r)
    ensures r != q ==> !(x in groups[r] && x in groups[q])
  {
    assert GroupOk(m, r, groups[r]) && GroupOk(m, q, groups[q]);
  }

  /** All objects, once each. */
  ghost function Everything(n: nat): multiset<nat> {
    if n == 0 then multiset{} else Everything(n - 1) + multiset{n - 1}
  }

  lemma {:induction false} EverythingCounts(n: nat, x: nat)
    ensures Everything(n)[x] == if x < n then 1 else 0
  {
    if n > 0 {
      EverythingCounts(n - 1, x);
    }
  }

  /** An object is emitted, once. */
  ghost predicate IsEmitted(m: seq<int>, x: nat)
    requires x < |m|
  {
    0 <= Host(m, x) < |m| && m[Host(m, x)] < 0
  }

  lemma EmittingConservesIffAllAreEmitted(m: seq<int>, groups: seq<seq<nat>>, s: Shape)
    requires Forest(m, s) && GroupsOk(m, groups)
    ensures Bag(Emitted(m, groups, 0)) == Everything(|m|) <==> forall x: nat :: x < |m| ==> IsEmitted(m, x)
  {
    hide Bag, GroupsOk;
    assert |groups| == |m| by { GroupsAreSized(m, groups); }
    var all, out := Everything(|m|), Bag(Emitted(m, groups, 0));
    forall x: nat
      ensures out[x] == if x < |m| && IsEmitted(m, x) then 1 else 0
      ensures all[x] == if x < |m| then 1 else 0
    {
      EmittedCounts(m, groups, s, 0, x);
      EverythingCounts(|m|, x);
    }
    if out == all {
      forall x: nat | x < |m| ensures IsEmitted(m, x) {
        assert out[x] == all[x];
      }
    }
  }

  lemma GroupsAreSized(m: seq<int>, groups: seq<seq<nat>>)
    requires GroupsOk(m, groups)
    ensures |groups| == |m|
  {
  }

  lemma ParentHasMembers(m: seq<int>, groups: seq<seq<nat>>, x: nat)
    requires GroupsOk(m, groups) && x < |m| && 0 <= m[x] < |m| && m[x] != x
    ensures |groups[m[x]]| > 1
  {
    assert GroupOk(m, m[x], groups[m[x]]);
    assert x in groups[m[x]];
  }

  /** When a root with members of its own was linked under another root, those members are lost: every
      object is emitted exactly once iff no linked object has a group of more than itself. */
  lemma EmittingConserves(m: seq<int>, groups: seq<seq<nat>>, s: Shape)
    requires Forest(m, s) && GroupsOk(m, groups)
    ensures Bag(Emitted(m, groups, 0)) == Everything(|m|) <==>
      forall c :: 0 <= c < |m| && m[c] >= 0 ==> |groups[c]| == 1
  {
    hide Bag, Emitted, Everything;
    EmittingConservesIffAllAreEmitted(m, groups, s);
    if forall c :: 0 <= c < |m| && m[c] >= 0 ==> |groups[c]| == 1 {
      forall x: nat | x < |m| ensures IsEmitted(m, x) {
        if m[x] >= 0 {
          ParentHasMembers(m, groups, x);
        }
      }
    } else {
      var c :| 0 <= c < |m| && m[c] >= 0 && |groups[c]| != 1;
      assert GroupOk(m, c, groups[c]);
      assert groups[c][1] in groups[c];
      assert !IsEmitted(m, groups[c][1]);
    }
  }

  /** Objects 0..3 of which only 1 and 0, 3 and 2, and 3 and 1 are close, in this order of distance: 1 takes 0 before it
      is linked under 3, so 0 hangs below a non-root and is never emitted. */
  lemma AnObjectIsLost(distance: (nat, nat) -> real, close: (nat, nat) -> bool)
    requires distance(1, 0) < distance(3, 2) < distance(3, 1)
    requires forall i: nat, j: nat :: j < i < 4 ==>
      (close(i, j) <==> (i == 1 && j == 0) || (i == 3 && j == 2) || (i == 3 && j == 1))
    ensures var infos := [TrackInfo(distance(1, 0), 1, 0), TrackInfo(distance(3, 2), 3, 2),
                          TrackInfo(distance(3, 1), 3, 1)];
      && AreInnerPairs(infos, 4, distance, close) && ByDistance(infos) && InnerPairs(infos, 4)
      && var g := TakenAll(4, infos, 3); Bag(Emitted(g.m, g.groups, 0))[0] == 0 && Everything(4)[0] == 1
  {
    var infos := [TrackInfo(distance(1, 0), 1, 0), TrackInfo(distance(3, 2), 3, 2), TrackInfo(distance(3, 1), 3, 1)];
    ThreePairs(infos, distance, close);
    ThreeLinks(infos);
    var g := TakenAll(4, infos, 3);
    TakenGroupsAreOk(4, infos, 3);
    hide Bag, Emitted, Forest, GroupsOk, Everything, TakenAll;
    EmittedCounts(g.m, g.groups, g.s, 0, 0);
    EverythingCounts(4, 0);
  }

  lemma ThreePairs(infos: seq<TrackInfo>, distance: (nat, nat) -> real, close: (nat, nat) -> bool)
    requires distance(1, 0) < distance(3, 2) < distance(3, 1)
    requires forall i: nat, j: nat :: j < i < 4 ==>
      (close(i, j) <==> (i == 1 && j == 0) || (i == 3 && j == 2) || (i == 3 && j == 1))
    requires infos == [TrackInfo(distance(1, 0), 1, 0), TrackInfo(distance(3, 2), 3, 2),
                       TrackInfo(distance(3, 1), 3, 1)]
    ensures AreInnerPairs(infos, 4, distance, close) && ByDistance(infos) && InnerPairs(infos, 4)
  {
    assert infos[0].currentIndex == 1 && infos[1].currentIndex == 3 && infos[2].mergedIndex == 1;
    assert Has(infos, distance(1, 0), 1, 0) && Has(infos, distance(3, 2), 3, 2) && Has(infos, distance(3, 1), 3, 1);
  }

  lemma ThreeLinks(infos: seq<TrackInfo>)
    requires InnerPairs(infos, 4) && |infos| == 3 && infos[0].currentIndex == 1 && infos[0].mergedIndex == 0
    requires infos[1].currentIndex == 3 && infos[1].mergedIndex == 2 && infos[2].currentIndex == 3 &&
      infos[2].mergedIndex == 1
    ensures TakenAll(4, infos, 3).m == [1, 3, 3, -1]
  {
    hide Forest;
    assert TakenAll(4, infos, 0) == Ungrouped(4);
    var a := TakenAll(4, infos, 1);
    assert a.m == [1, -1, -1, -1] && a.s.root == [1, 1, 2, 3];
    var b := TakenAll(4, infos, 2);
    assert b.m == [1, -1, 3, -1] && b.s.root == [1, 1, 3, 3];
  }

  // ---- the whole merge ----

  /** The split of every emitted group is defined. */
  ghost predicate RootsDefined(w: World, m: seq<int>, groups: seq<seq<nat>>, maxSize: real)
  {
    |m| == |groups| && forall x :: 0 <= x < |m| && m[x] < 0 ==> Defined(w, groups[x], maxSize)
  }

  /** The groups created for the roots from the last object down to the i-th. */
  ghost function CreatedFrom(w: World, m: seq<int>, groups: seq<seq<nat>>, i: nat, maxSize: real): seq<seq<nat>>
    requires i <= |m| == |groups| && RootsDefined(w, m, groups, maxSize)
    decreases |m| - i
  {
    if i == |m| then []
    else CreatedFrom(w, m, groups, i + 1, maxSize) + if m[i] < 0 then Created(w, groups[i], maxSize) else []
  }

  /** Splitting changes nothing about which objects get a trackable unless a group vanishes on the way. */
  lemma {:induction false} CreatingConserves(w: World, m: seq<int>, groups: seq<seq<nat>>, i: nat, maxSize: real)
    requires i <= |m| == |groups| && RootsDefined(w, m, groups, maxSize)
    requires forall x :: 0 <= x < |m| ==> groups[x] != []
    ensures Bag(CreatedFrom(w, m, groups, i, maxSize)) <= Bag(Emitted(m, groups, i))
    ensures Bag(CreatedFrom(w, m, groups, i, maxSize)) == Bag(Emitted(m, groups, i)) <==>
      forall x :: i <= x < |m| && m[x] < 0 ==> NothingVanishes(w, groups[x], maxSize)
    decreases |m| - i
  {
    hide Defined, Created, NothingVanishes, Bag;
    if i < |m| {
      CreatingConserves(w, m, groups, i + 1, maxSize);
      if m[i] < 0 {
        SplitPartitions(w, groups[i], maxSize);
        BagConcat(CreatedFrom(w, m, groups, i + 1, maxSize), Created(w, groups[i], maxSize));
        BagConcat(Emitted(m, groups, i + 1), [groups[i]]);
        BagOfOne(groups[i]);
        SumsAreEqualIffPartsAre(Bag(CreatedFrom(w, m, groups, i + 1, maxSize)), Bag(Emitted(m, groups, i + 1)),
                                Bag(Created(w, groups[i], maxSize)), multiset(groups[i]));
      } else {
        assert Emitted(m, groups, i + 1) + [] == Emitted(m, groups, i + 1);
        assert CreatedFrom(w, m, groups, i + 1, maxSize) + [] == CreatedFrom(w, m, groups, i + 1, maxSize);
      }
    }
  }

  lemma GroupsAreNotEmpty(m: seq<int>, groups: seq<seq<nat>>)
    requires GroupsOk(m, groups)
    ensures |groups| == |m| && forall x :: 0 <= x < |m| ==> groups[x] != []
  {
    assert forall x :: 0 <= x < |m| ==> GroupOk(m, x, groups[x]);
  }

  /** A grouping that the candidates of a frame can lead to; candidates at equal distances may be taken in any order. */
  ghost predicate CanArise(n: nat, distance: (nat, nat) -> real, close: (nat, nat) -> bool, m: seq<int>,
                           groups: seq<seq<nat>>) {
    exists infos :: AreInnerPairs(infos, n, distance, close) && ByDistance(infos) && Leads(n, infos, m, groups)
  }

  ghost predicate Leads(n: nat, infos: seq<TrackInfo>, m: seq<int>, groups: seq<seq<nat>>) {
    InnerPairs(infos, n) && TakenAll(n, infos, |infos|).m == m && TakenAll(n, infos, |infos|).groups == groups
  }

  lemma {:induction false} TakenGroupsAreOk(n: nat, infos: seq<TrackInfo>, k: nat)
    requires k <= |infos| && InnerPairs(infos, n)
    ensures var g := TakenAll(n, infos, k); GroupsOk(g.m, g.groups)
  {
    hide Forest, Linked, SelfRoots;
    if k == 0 {
      OwnGroupsAreOk(n);
    } else {
      var g, t := TakenAll(n, infos, k - 1), infos[k - 1];
      TakenGroupsAreOk(n, infos, k - 1);
      RootsAreNodes(g.m, g.s);
      if !(BothAssigned(g.m, t) || g.s.root[Partner(g.m, t)] == Child(g.m, t)) {
        LinkKeepsGroups(g.m, g.groups, Child(g.m, t), g.s.root[Partner(g.m, t)]);
      }
    }
  }

  /** What the first k candidates lead to: trees are chained by candidates, no candidate joins two roots, and what a
      candidate names is in one tree or hangs under other nodes. */
  lemma {:induction false} TakenAreJoined(n: nat, infos: seq<TrackInfo>, k: nat)
    requires k <= |infos| && InnerPairs(infos, n)
    ensures var g := TakenAll(n, infos, k);
      && |g.s.root| == |g.m| == n && WithinSizes(infos, n, n) && RootsChained(infos, g.s)
      && Settled(infos, k, g.m) && Joined(infos, k, g.m, g.s)
  {
    hide Forest, Taken, Takes, Ungrouped, Joined, Settled, RootsChained;
    if k == 0 {
      NothingToJoin(n, infos);
    } else {
      TakenAreJoined(n, infos, k - 1);
      var g, t := TakenAll(n, infos, k - 1), infos[k - 1];
      var link := TakenIsTaking(g, t);
      TakingKeepsChains(infos, g.m, g.s, t, link, Taken(g, t).m, Taken(g, t).s);
      TakingSettles(infos, k - 1, g.m, g.s, link, Taken(g, t).m, Taken(g, t).s);
      TakingJoins(infos, k - 1, g.m, g.s, link, Taken(g, t).m, Taken(g, t).s);
    }
  }

  lemma NothingToJoin(n: nat, infos: seq<TrackInfo>)
    requires InnerPairs(infos, n)
    ensures var g := Ungrouped(n);
      && |g.s.root| == |g.m| == n && WithinSizes(infos, n, n) && RootsChained(infos, g.s)
      && Settled(infos, 0, g.m) && Joined(infos, 0, g.m, g.s)
  {
    SelfRootsAreChained(infos, n);
  }

  lemma RootsAreNodes(m: seq<int>, s: Shape)
    requires Forest(m, s)
    ensures |s.root| == |m| && forall x :: 0 <= x < |m| ==> s.root[x] < |m|
  {
  }

  lemma OwnGroupsAreOk(n: nat)
    ensures GroupsOk(Ungrouped(n).m, Ungrouped(n).groups)
  {
    var g := Ungrouped(n);
    forall x | 0 <= x < n ensures GroupOk(g.m, x, g.groups[x]) {
    }
  }

  /** Every split is defined when there is no size limit, or when the centres of the frame are pairwise distinct. */
  lemma FramesAreDefined(n: nat, w: World, distance: (nat, nat) -> real, close: (nat, nat) -> bool, maxSize: real)
    requires maxSize <= 0.0 || forall a: nat, b: nat :: a < b < n ==> w.center(a) != w.center(b)
    ensures forall m, groups :: CanArise(n, distance, close, m, groups) ==> RootsDefined(w, m, groups, maxSize)
  {
    hide RootsDefined, AreInnerPairs, ByDistance, Leads;
    forall m, groups | CanArise(n, distance, close, m, groups) ensures RootsDefined(w, m, groups, maxSize) {
      var infos :| Leads(n, infos, m, groups);
      GroupingIsDefined(n, w, infos, m, groups, maxSize);
    }
  }

  lemma GroupingIsDefined(n: nat, w: World, infos: seq<TrackInfo>, m: seq<int>, groups: seq<seq<nat>>, maxSize: real)
    requires Leads(n, infos, m, groups)
    requires maxSize <= 0.0 || forall a: nat, b: nat :: a < b < n ==> w.center(a) != w.center(b)
    ensures RootsDefined(w, m, groups, maxSize)
  {
    hide Defined, TakenAll, GroupsOk, Forest;
    TakenGroupsAreOk(n, infos, |infos|);
    forall x | 0 <= x < |m| && m[x] < 0 ensures Defined(w, groups[x], maxSize) {
      if maxSize > 0.0 {
        GroupHasDistinctCentres(w, m, groups, x);
      }
      SplitIsDefined(w, groups[x], maxSize);
    }
  }

  lemma GroupHasDistinctCentres(w: World, m: seq<int>, groups: seq<seq<nat>>, x: nat)
    requires GroupsOk(m, groups) && x < |m|
    requires forall a: nat, b: nat :: a < b < |m| ==> w.center(a) != w.center(b)
    ensures DistinctCentres(w, groups[x])
  {
    var g := groups[x];
    assert GroupOk(m, x, g);
    forall i, j | 0 <= i < j < |g| ensures w.center(g[i]) != w.center(g[j]) {
      assert g[i] in g && g[j] in g;
    }
  }

  /** One trackable, or several, for each root, from the last object down. */
  method CreateTrackables(w: World, mixedIndex: array<int>, groups: seq<seq<nat>>, objectMaxSize: real)
    returns (merged: seq<seq<nat>>)
    requires |groups| == mixedIndex.Length && RootsDefined(w, mixedIndex[..], groups, objectMaxSize)
    requires forall x :: 0 <= x < |groups| ==> groups[x] != []
    ensures merged == CreatedFrom(w, mixedIndex[..], groups, 0, objectMaxSize)
  {
    hide Defined, Created;
    var list := new Merged();
    var i := mixedIndex.Length;
    ghost var m := mixedIndex[..];
    while i > 0
      invariant 0 <= i <= mixedIndex.Length && mixedIndex[..] == m
      invariant list.groups == CreatedFrom(w, m, groups, i, objectMaxSize)
    {
      i := i - 1;
      if mixedIndex[i] < 0 && |groups[i]| > 0 {
        list.AddObjects(w, groups[i], objectMaxSize);
      } else {
        assert list.groups + [] == list.groups;
      }
    }
    merged := list.groups;
  }

  method MergeObjects(n: nat, w: World, distance: (nat, nat) -> real, close: (nat, nat) -> bool, objectMaxSize: real)
    returns (merged: seq<seq<nat>>, ghost m: seq<int>, ghost groups: seq<seq<nat>>, ghost s: Shape)
    requires forall m, groups :: CanArise(n, distance, close, m, groups) ==> RootsDefined(w, m, groups, objectMaxSize)
    ensures |m| == n && Forest(m, s) && GroupsOk(m, groups) && RootsDefined(w, m, groups, objectMaxSize)
    ensures forall x: nat, y: nat :: x < n && y < n && s.root[x] == s.root[y] ==> LinkedByCloseness(n, close, x, y)
    ensures forall i: nat, j: nat :: j < i < n && m[i] < 0 && m[j] < 0 ==> !close(i, j)
    ensures forall i: nat, j: nat :: j < i < n && close(i, j) ==> s.root[i] == s.root[j] || (m[i] >= 0 && m[j] >= 0)
    ensures merged == CreatedFrom(w, m, groups, 0, objectMaxSize)
    ensures forall g :: g in merged ==> IsLeftBySome(w, m, groups, g, objectMaxSize)
  {
    var pairs := CollectInnerPairs(n, distance, close);
    var infos := SortByDistance(pairs);
    SortedInnerPairs(pairs, infos, n, distance, close);
    var mixedIndex, g, shape := GroupObjects(n, infos);
    m, groups, s := mixedIndex[..], g, shape;
    GroupsAreNotEmpty(m, groups);
    assert Leads(n, infos, m, groups) && CanArise(n, distance, close, m, groups);
    TreesAreClose(infos, n, distance, close, s);
    RootsAreApart(infos, m, distance, close);
    TakenAreJoined(n, infos, |infos|);
    CloseAreJoined(infos, m, s, distance, close);
    merged := CreateTrackables(w, mixedIndex, g, objectMaxSize);
    forall g | g in merged ensures IsLeftBySome(w, m, groups, g, objectMaxSize) {
      LeftBySome(w, m, groups, 0, objectMaxSize, g);
    }
  }

  /** What splitting the group of some root leaves: reached by cutting groups that had to be cut, and not to be cut. */
  ghost predicate IsLeftBySome(w: World, m: seq<int>, groups: seq<seq<nat>>, g: seq<nat>, maxSize: real) {
    exists x :: 0 <= x < |m| && x < |groups| && m[x] < 0 && IsLeft(w, groups[x], g, maxSize)
  }

  lemma {:induction false} LeftBySome(w: World, m: seq<int>, groups: seq<seq<nat>>, i: nat, maxSize: real, g: seq<nat>)
    requires i <= |m| == |groups| && RootsDefined(w, m, groups, maxSize) && g in CreatedFrom(w, m, groups, i, maxSize)
    ensures IsLeftBySome(w, m, groups, g, maxSize)
    decreases |m| - i
  {
    hide Defined, Created, LeadsTo;
    if m[i] < 0 && g in Created(w, groups[i], maxSize) {
      var path := NothingLeftHasToBeCut(w, groups[i], maxSize, g);
      assert IsLeft(w, groups[i], g, maxSize);
    } else {
      LeftBySome(w, m, groups, i + 1, maxSize, g);
    }
  }

  lemma TreesAreClose(infos: seq<TrackInfo>, n: nat, distance: (nat, nat) -> real, close: (nat, nat) -> bool, s: Shape)
    requires AreInnerPairs(infos, n, distance, close) && |s.root| == n && RootsChained(infos, s)
    ensures forall x: nat, y: nat :: x < n && y < n && s.root[x] == s.root[y] ==> LinkedByCloseness(n, close, x, y)
  {
    forall x: nat, y: nat | x < n && y < n && s.root[x] == s.root[y] ensures LinkedByCloseness(n, close, x, y) {
      TreesAreChained(infos, s, x, y);
      ChainsAreClose(infos, n, distance, close, x, y);
    }
  }

  lemma RootsAreApart(infos: seq<TrackInfo>, m: seq<int>, distance: (nat, nat) -> real, close: (nat, nat) -> bool)
    requires AreInnerPairs(infos, |m|, distance, close) && Settled(infos, |infos|, m)
    ensures forall i: nat, j: nat :: j < i < |m| && m[i] < 0 && m[j] < 0 ==> !close(i, j)
  {
    forall i: nat, j: nat | j < i < |m| && m[i] < 0 && m[j] < 0 ensures !close(i, j) {
      RootsAreSeparated(infos, m, distance, close, i, j);
    }
  }

  ghost predicate NextTo(n: nat, close: (nat, nat) -> bool, x: nat, y: nat) {
    x < n && y < n && ((y < x && close(x, y)) || (x < y && close(y, x)))
  }

  /** A sequence of objects each close to the next leads from x to y. */
  ghost predicate LinkedByCloseness(n: nat, close: (nat, nat) -> bool, x: nat, y: nat) {
    exists p: seq<nat> :: ClosePath(n, close, p) && p[0] == x && p[|p| - 1] == y
  }

  ghost predicate ClosePath(n: nat, close: (nat, nat) -> bool, p: seq<nat>) {
    |p| > 0 && forall k :: 0 <= k < |p| - 1 ==> NextTo(n, close, p[k], p[k + 1])
  }

  lemma ChainsAreClose(infos: seq<TrackInfo>, n: nat, distance: (nat, nat) -> real, close: (nat, nat) -> bool, x: nat,
                       y: nat)
    requires AreInnerPairs(infos, n, distance, close) && Chained(infos, x, y)
    ensures LinkedByCloseness(n, close, x, y)
  {
    var p :| IsChain(infos, p) && p[0] == x && p[|p| - 1] == y;
    forall k | 0 <= k < |p| - 1 ensures NextTo(n, close, p[k], p[k + 1]) {
      assert Adjacent(infos, p[k], p[k + 1]);
    }
    assert ClosePath(n, close, p);
  }

  /** Every object gets exactly one trackable iff no linked object had collected others and no oversized group
      vanishes. */
  lemma MergingConserves(w: World, m: seq<int>, groups: seq<seq<nat>>, s: Shape, maxSize: real)
    requires Forest(m, s) && GroupsOk(m, groups)
    requires RootsDefined(w, m, groups, maxSize)
    ensures Bag(CreatedFrom(w, m, groups, 0, maxSize)) <= Everything(|m|)
    ensures Bag(CreatedFrom(w, m, groups, 0, maxSize)) == Everything(|m|) <==>
      (forall c :: 0 <= c < |m| && m[c] >= 0 ==> |groups[c]| == 1) &&
      (forall x :: 0 <= x < |m| && m[x] < 0 ==> NothingVanishes(w, groups[x], maxSize))
  {
    GroupsAreNotEmpty(m, groups);
    hide Defined, NothingVanishes, Created, Bag, GroupsOk, Forest;
    CreatingConserves(w, m, groups, 0, maxSize);
    EmittingConserves(m, groups, s);
    forall x: nat ensures Bag(Emitted(m, groups, 0))[x] <= Everything(|m|)[x] {
      EmittedCounts(m, groups, s, 0, x);
      EverythingCounts(|m|, x);
    }
    var a, b, c := Bag(CreatedFrom(w, m, groups, 0, maxSize)), Bag(Emitted(m, groups, 0)), Everything(|m|);
    assert a <= b <= c;
    assert a == c ==> b == c by {
      if a == c {
        forall x ensures b[x] == c[x] {
          assert a[x] <= b[x] <= c[x];
        }
      }
    }
  }
}
