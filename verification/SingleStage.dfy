/** The other way of merging the sensor stages: all trackables go into one list first, close ones are linked
    in a union forest, and the linked ones are taken out of the list again.  */
module SingleStage {
  import opened Common
  import opened Candidates
  import opened UnionForest
  import opened ObjectGroups
  import opened StageMerge

  /** The roots below the i-th index, in order. */
  ghost function Roots(m: seq<int>, i: nat): seq<nat>
    requires i <= |m|
  {
    if i == 0 then [] else Roots(m, i - 1) + if m[i - 1] < 0 then [i - 1] else []
  }

  lemma {:induction false} RootsAreTheRoots(m: seq<int>, i: nat, x: nat)
    requires i <= |m|
    ensures x in Roots(m, i) <==> x < i && m[x] < 0
    ensures forall a, b :: 0 <= a < b < |Roots(m, i)| ==> Roots(m, i)[a] < Roots(m, i)[b]
    ensures forall a :: 0 <= a < |Roots(m, i)| ==> Roots(m, i)[a] < i
  {
    if i > 0 {
      RootsAreTheRoots(m, i - 1, x);
    }
  }

  /** The list after the linked entries from the i-th on have been erased. */
  ghost function Erased(m: seq<int>, i: nat): seq<nat>
    requires i <= |m|
    decreases |m| - i
  {
    if i == |m| then seq(|m|, k requires 0 <= k < |m| => k)
    else
      var rest := Erased(m, i + 1);
      if m[i] >= 0 && i < |rest| then rest[..i] + rest[i + 1..] else rest
  }

  /** Erasing from the back keeps the front of the list in place. */
  lemma {:induction false} ErasedIs(m: seq<int>, i: nat)
    requires i <= |m|
    ensures Erased(m, i) == seq(i, k requires 0 <= k < i => k) + RootsFrom(m, i)
    decreases |m| - i
  {
    if i < |m| {
      ErasedIs(m, i + 1);
      OneErased(i, RootsFrom(m, i + 1));
      assert [] + RootsFrom(m, i + 1) == RootsFrom(m, i + 1);
    }
  }

  lemma OneErased(i: nat, tail: seq<nat>)
    ensures var front: seq<nat>, rest: seq<nat> :=
      seq(i, k requires 0 <= k < i => k), seq(i + 1, k requires 0 <= k < i + 1 => k) + tail;
      |rest| > i && rest[..i] == front && rest[i + 1..] == tail && rest == front + ([i] + tail)
  {
  }

  ghost function RootsFrom(m: seq<int>, i: nat): seq<nat>
    requires i <= |m|
    decreases |m| - i
  {
    if i == |m| then [] else (if m[i] < 0 then [i] else []) + RootsFrom(m, i + 1)
  }

  lemma {:induction false} RootsFromIsRoots(m: seq<int>, i: nat)
    requires i <= |m|
    ensures Roots(m, i) + RootsFrom(m, i) == Roots(m, |m|)
    decreases |m| - i
  {
    if i < |m| {
      RootsFromIsRoots(m, i + 1);
      var head: seq<nat> := if m[i] < 0 then [i] else [];
      Regroup(Roots(m, i), head, RootsFrom(m, i + 1));
    }
  }

  lemma Regroup(a: seq<nat>, b: seq<nat>, c: seq<nat>)
    ensures a + (b + c) == a + b + c
  {
  }

  function Within(distance: (nat, nat) -> real, limit: real): (nat, nat) -> bool {
    (i: nat, j: nat) => distance(i, j) <= limit
  }

  // ---- where the survivors are ----

  /** Weights are whole numbers, and so is their quotient. */
  function Ratio(a: nat, b: nat): real
    requires b > 0
  {
    (a / b) as real
  }

  /** A trackable and another one that is linked to it: its weight is counted up and divides that of the other one. */
  function Joint(b: Body, other: Body, weight: nat, otherWeight: nat): Body {
    MixWith(b, other, Ratio(otherWeight, weight + 1))
  }

  ghost predicate Links(g: Grouping, t: TrackInfo)
    requires Takable(g, t)
  {
    !BothAssigned(g.m, t) && g.s.root[Partner(g.m, t)] != Child(g.m, t)
  }

  ghost function Stays(g: Grouping, t: TrackInfo): (r: nat)
    requires Takable(g, t)
    ensures r < |g.m| && r < |g.groups|
  {
    g.s.root[Partner(g.m, t)]
  }

  /** The trackables after the first k candidates. What is linked to one counts in its weight. */
  ghost function Placed(bodies: seq<Body>, infos: seq<TrackInfo>, k: nat): (r: seq<Body>)
    requires k <= |infos| && InnerPairs(infos, |bodies|)
    ensures |r| == |bodies|
  {
    if k == 0 then bodies
    else
      var before, g, t := Placed(bodies, infos, k - 1), TakenAll(|bodies|, infos, k - 1), infos[k - 1];
      if !Links(g, t) then before
      else
        var c, r := Child(g.m, t), Stays(g, t);
        before[r := Joint(before[r], before[c], |g.groups[r]|, |g.groups[c]|)]
  }

  /** The weight of a linked trackable is at least twice that of the one it is linked to, counted up. */
  ghost predicate Overshoots(n: nat, infos: seq<TrackInfo>, k: nat)
    requires k < |infos| && InnerPairs(infos, n)
  {
    var g, t := TakenAll(n, infos, k), infos[k];
    Links(g, t) && |g.groups[Child(g.m, t)]| >= 2 * (|g.groups[Stays(g, t)]| + 1)
  }

  /** There are no averages: the one that stays takes the place of a linked one that weighs no more, or keeps its own,
      or moves away from the linked one, at least as far as that is off. */
  lemma JointIs(b: Body, other: Body, weight: nat, otherWeight: nat)
    ensures otherWeight <= weight ==> Joint(b, other, weight, otherWeight) == other
    ensures weight < otherWeight < 2 * (weight + 1) ==> Joint(b, other, weight, otherWeight) == b
    ensures otherWeight >= 2 * (weight + 1) ==> forall a: Axis ::
      var v, w, u := At(b, a), At(other, a), At(Joint(b, other, weight, otherWeight), a);
      (v >= w ==> u - v >= v - w) && (v <= w ==> u - v <= v - w)
  {
    var q := otherWeight / (weight + 1);
    if otherWeight <= weight {
      assert q == 0;
    } else if otherWeight < 2 * (weight + 1) {
      assert q == 1;
    } else {
      Quotient(otherWeight, weight + 1);
      forall a: Axis
        ensures var v, w, u := At(b, a), At(other, a), At(MixWith(b, other, q as real), a);
          (v >= w ==> u - v >= v - w) && (v <= w ==> u - v <= v - w)
      {
        Beyond(q as real, At(b, a), At(other, a));
      }
    }
  }

  lemma Quotient(a: nat, b: nat)
    requires b > 0 && a >= 2 * b
    ensures a / b >= 2
  {
  }

  lemma Beyond(q: real, v: real, w: real)
    requires q >= 2.0
    ensures var u := q * v + (1.0 - q) * w; (v >= w ==> u - v >= v - w) && (v <= w ==> u - v <= v - w)
  {
    assert q * v + (1.0 - q) * w - v == (q - 1.0) * (v - w);
    assert (q - 1.0) * (v - w) - (v - w) == (q - 2.0) * (v - w);
    ProductIsSigned(q - 2.0, v - w);
  }

  lemma ProductIsSigned(p: real, d: real)
    requires p >= 0.0
    ensures (d >= 0.0 ==> p * d >= 0.0) && (d <= 0.0 ==> p * d <= 0.0)
  {
  }

  /** Whose place x has taken after the first k candidates. */
  ghost function Origin(n: nat, infos: seq<TrackInfo>, k: nat, x: nat): (o: nat)
    requires k <= |infos| && InnerPairs(infos, n) && x < n
    ensures o < n
  {
    if k == 0 then x
    else
      var g, t := TakenAll(n, infos, k - 1), infos[k - 1];
      var taken := Links(g, t) && x == Stays(g, t) && |g.groups[Child(g.m, t)]| <= |g.groups[x]|;
      Origin(n, infos, k - 1, if taken then Child(g.m, t) else x)
  }

  /** One of its own tree. */
  lemma {:induction false} OriginIsInTree(n: nat, infos: seq<TrackInfo>, k: nat, x: nat)
    requires k <= |infos| && InnerPairs(infos, n) && x < n
    ensures var root := TakenAll(n, infos, k).s.root; |root| == n && root[Origin(n, infos, k, x)] == root[x]
  {
    hide Forest, Taken, Links, BothAssigned, Partner;
    if k > 0 {
      var g, t := TakenAll(n, infos, k - 1), infos[k - 1];
      OriginIsInTree(n, infos, k - 1, x);
      OriginIsInTree(n, infos, k - 1, Child(g.m, t));
      TreesGrow(g, t);
    }
  }

  lemma TreesGrow(g: Grouping, t: TrackInfo)
    requires Takable(g, t)
    ensures var root, root' := g.s.root, Taken(g, t).s.root;
      && |root| == |root'| == |g.m|
      && (forall x, y :: 0 <= x < |root| && 0 <= y < |root| && root[x] == root[y] ==> root'[x] == root'[y])
      && (Links(g, t) ==>
            var c, r := Child(g.m, t), Stays(g, t);
            root[c] == c && root[r] == r && root'[c] == root'[r])
  {
  }

  /** As long as nothing overshoots every trackable is at a place where one of its tree was. */
  lemma {:induction false} StandsAtOrigin(bodies: seq<Body>, infos: seq<TrackInfo>, k: nat, x: nat)
    requires k <= |infos| && InnerPairs(infos, |bodies|) && x < |bodies|
    requires forall j :: 0 <= j < k ==> !Overshoots(|bodies|, infos, j)
    ensures Placed(bodies, infos, k)[x] == bodies[Origin(|bodies|, infos, k, x)]
  {
    hide Forest, Taken, Joint;
    if k > 0 {
      var g, t := TakenAll(|bodies|, infos, k - 1), infos[k - 1];
      assert !Overshoots(|bodies|, infos, k - 1);
      StandsAtOrigin(bodies, infos, k - 1, x);
      if Links(g, t) && x == Stays(g, t) {
        StandsAtOrigin(bodies, infos, k - 1, Child(g.m, t));
        var before, c := Placed(bodies, infos, k - 1), Child(g.m, t);
        JointIs(before[x], before[c], |g.groups[x]|, |g.groups[c]|);
      }
    }
  }

  /** All trackables are where some trackable of the frame was that is in their tree now. */
  ghost predicate Stand(bodies: seq<Body>, infos: seq<TrackInfo>, k: nat)
    requires k <= |infos| && InnerPairs(infos, |bodies|)
  {
    forall x :: 0 <= x < |bodies| ==> StandsAtOne(bodies, infos, k, x)
  }

  ghost predicate StandsAtOne(bodies: seq<Body>, infos: seq<TrackInfo>, k: nat, x: nat)
    requires k <= |infos| && InnerPairs(infos, |bodies|) && x < |bodies|
  {
    var root := TakenAll(|bodies|, infos, k).s.root;
    exists y :: 0 <= y < |bodies| == |root| && root[y] == root[x] && Placed(bodies, infos, k)[x] == bodies[y]
  }

  /** Of the first overshooting candidate the one that stays can end where none of the frame was. */
  lemma OvershotStandsNowhere(n: nat, infos: seq<TrackInfo>, k: nat) returns (bodies: seq<Body>)
    requires k < |infos| && InnerPairs(infos, n) && Overshoots(n, infos, k)
    requires forall j :: 0 <= j < k ==> !Overshoots(n, infos, j)
    ensures |bodies| == n && !Stand(bodies, infos, k + 1)
  {
    hide Forest, Taken, Placed, Joint;
    var g, t := TakenAll(n, infos, k), infos[k];
    var c, r := Child(g.m, t), Stays(g, t);
    var far := Origin(n, infos, k, c);
    bodies := seq(n, y => if y == far then Body(1.0, 0.0, 0.0) else Body(0.0, 0.0, 0.0));
    OriginIsInTree(n, infos, k, c);
    OriginIsInTree(n, infos, k, r);
    TreesGrow(g, t);
    StandsAtOrigin(bodies, infos, k, c);
    StandsAtOrigin(bodies, infos, k, r);
    var before := Placed(bodies, infos, k);
    JointIs(before[r], before[c], |g.groups[r]|, |g.groups[c]|);
    PlacedNext(bodies, infos, k);
    assert At(before[r], AlongX) == 0.0 && At(before[c], AlongX) == 1.0;
    assert At(Placed(bodies, infos, k + 1)[r], AlongX) <= -1.0;
    assert !StandsAtOne(bodies, infos, k + 1, r);
  }

  lemma PlacedNext(bodies: seq<Body>, infos: seq<TrackInfo>, k: nat)
    requires k < |infos| && InnerPairs(infos, |bodies|)
    ensures var before, g, t := Placed(bodies, infos, k), TakenAll(|bodies|, infos, k), infos[k];
      Placed(bodies, infos, k + 1) ==
      if !Links(g, t) then before
      else
        var c, r := Child(g.m, t), Stays(g, t);
        before[r := Joint(before[r], before[c], |g.groups[r]|, |g.groups[c]|)]
  {
    hide Forest, Taken, Joint;
  }

  /** Wherever the trackables of a frame are, all stay at places where one of their tree was iff no candidate
      overshoots. */
  lemma NothingIsMovedAwayIff(n: nat, infos: seq<TrackInfo>)
    requires InnerPairs(infos, n)
    ensures (forall k :: 0 <= k < |infos| ==> !Overshoots(n, infos, k)) <==>
      forall bodies: seq<Body>, k: nat :: |bodies| == n && k <= |infos| ==> Stand(bodies, infos, k)
  {
    hide Overshoots, Placed, Origin, TakenAll;
    if forall k :: 0 <= k < |infos| ==> !Overshoots(n, infos, k) {
      forall bodies: seq<Body>, k: nat, x: nat | |bodies| == n && k <= |infos| && x < n
        ensures StandsAtOne(bodies, infos, k, x)
      {
        StandsAtOrigin(bodies, infos, k, x);
        OriginIsInTree(n, infos, k, x);
      }
    } else {
      var k := FirstOvershoot(n, infos, 0);
      var bodies := OvershotStandsNowhere(n, infos, k);
    }
  }

  lemma FirstOvershoot(n: nat, infos: seq<TrackInfo>, from: nat) returns (k: nat)
    requires InnerPairs(infos, n) && from <= |infos| && exists k :: 0 <= k < |infos| && Overshoots(n, infos, k)
    requires forall j :: 0 <= j < from ==> !Overshoots(n, infos, j)
    ensures k < |infos| && Overshoots(n, infos, k) && forall j :: 0 <= j < k ==> !Overshoots(n, infos, j)
    decreases |infos| - from
  {
    hide Overshoots;
    k := from;
    if from == |infos| || !Overshoots(n, infos, from) {
      k := FirstOvershoot(n, infos, from + 1);
    }
  }

  ghost function SquaredDistance(b: Body, other: Body): real {
    Square(b.x - other.x) + Square(b.y - other.y)
  }

  function FiveBodies(): seq<Body> {
    [Body(0.0, 10.0, 1.0), Body(-10.5, 0.0, 1.0), Body(0.0, -11.0, 1.0), Body(0.0, 0.0, 1.0), Body(12.0, 0.0, 1.0)]
  }

  /** The pairs of the five that are within 12 of each other, in order of distance. */
  function FourCandidates(): seq<TrackInfo> {
    [TrackInfo(10.0, 3, 0), TrackInfo(10.5, 3, 1), TrackInfo(11.0, 3, 2), TrackInfo(12.0, 4, 3)]
  }

  lemma FourAreClose()
    ensures var b := FiveBodies();
      && SquaredDistance(b[3], b[0]) == Square(10.0) && SquaredDistance(b[3], b[1]) == Square(10.5)
      && SquaredDistance(b[3], b[2]) == Square(11.0) && SquaredDistance(b[4], b[3]) == Square(12.0)
    ensures var b := FiveBodies();
      && SquaredDistance(b[1], b[0]) > Square(12.0) && SquaredDistance(b[2], b[0]) > Square(12.0)
      && SquaredDistance(b[2], b[1]) > Square(12.0) && SquaredDistance(b[4], b[0]) > Square(12.0)
      && SquaredDistance(b[4], b[1]) > Square(12.0) && SquaredDistance(b[4], b[2]) > Square(12.0)
  {
    SomeSquares();
    hide Square;
  }

  /** The place where the survivor of the five ends is farther than 12 from each of them. */
  lemma FarFromAllFive(b: Body)
    requires b in FiveBodies()
    ensures SquaredDistance(Body(24.0, 11.0, 1.0), b) > Square(12.0)
  {
    SomeSquares();
    SquareIsPositive(11.0 - b.y);
    if b.x < 12.0 {
      SquareGrows(12.0, 24.0 - b.x);
    }
    hide Square;
  }

  lemma SquareGrows(p: real, q: real)
    requires 0.0 <= p < q
    ensures Square(p) < Square(q)
  {
    ProductSigns(q - p, q + p);
    assert Square(q) - Square(p) == Common.Times(q - p, q + p);
  }

  lemma SomeSquares()
    ensures Square(0.0) == 0.0 && Square(10.0) == 100.0 == Square(-10.0) && Square(-11.0) == 121.0 == Square(11.0)
    ensures Square(10.5) == 110.25 == Square(-10.5) && Square(12.0) == 144.0 && Square(22.5) == 506.25
    ensures Square(21.0) == 441.0 == Square(-21.0)
  {
  }

  /** Three trackables linked to a fourth, and that to a fifth: the survivor ends as far behind the fifth as the third,
      whose place the fourth had taken, is in front of it. */
  lemma ASurvivorIsMovedAway()
    ensures var infos, bodies := FourCandidates(), FiveBodies();
      && InnerPairs(infos, 5) && TakenAll(5, infos, 4).m == [3, 3, 3, 4, -1]
      && Placed(bodies, infos, 4)[4] == Body(24.0, 11.0, 1.0)
  {
    var infos, bodies := FourCandidates(), FiveBodies();
    FourLinks(infos);
    hide Forest, TakenAll, BothAssigned, Child, Partner, Stays, Links, MixWith, Joint;
    PlacedNext(bodies, infos, 0);
    PlacedNext(bodies, infos, 1);
    PlacedNext(bodies, infos, 2);
    PlacedNext(bodies, infos, 3);
    JointIs(bodies[3], bodies[0], 1, 1);
    JointIs(bodies[0], bodies[1], 2, 1);
    JointIs(bodies[1], bodies[2], 3, 1);
    Twice(bodies[4], bodies[2]);
  }

  lemma Twice(b: Body, other: Body)
    ensures Joint(b, other, 1, 4) == Body(2.0 * b.x - other.x, 2.0 * b.y - other.y, 2.0 * b.size - other.size)
  {
    assert MixWith(b, other, 2.0) == Body(2.0 * b.x - other.x, 2.0 * b.y - other.y, 2.0 * b.size - other.size);
    hide MixWith;
    assert Ratio(4, 2) == 2.0;
  }

  lemma FourLinks(infos: seq<TrackInfo>)
    requires |infos| == 4 && infos[3].currentIndex == 4 && infos[3].mergedIndex == 3
    requires forall k :: 0 <= k < 3 ==> infos[k].currentIndex == 3 && infos[k].mergedIndex == k
    ensures InnerPairs(infos, 5) && TakenAll(5, infos, 4).m == [3, 3, 3, 4, -1]
    ensures forall k :: 0 <= k < 3 ==>
      var g := TakenAll(5, infos, k);
      Links(g, infos[k]) && Child(g.m, infos[k]) == k && Stays(g, infos[k]) == 3 && |g.groups[3]| == k + 1 &&
      |g.groups[k]| == 1
    ensures var g := TakenAll(5, infos, 3);
      Links(g, infos[3]) && Child(g.m, infos[3]) == 3 && Stays(g, infos[3]) == 4 && |g.groups[4]| == 1 &&
      |g.groups[3]| == 4
  {
    hide Forest, TakenAll, Ungrouped, Taken, Links, Child, Stays, Partner, BothAssigned, SelfRoots;
    var start := TakenAll(5, infos, 0);
    NothingTaken(5, infos);
    TakenNext(5, infos, 0);
    LinkedUnder(start, infos[0], 0, 3);
    TakenNext(5, infos, 1);
    LinkedUnder(TakenAll(5, infos, 1), infos[1], 1, 3);
    TakenNext(5, infos, 2);
    LinkedUnder(TakenAll(5, infos, 2), infos[2], 2, 3);
    TakenNext(5, infos, 3);
    LinkedUnder(TakenAll(5, infos, 3), infos[3], 3, 4);
  }

  lemma NothingTaken(n: nat, infos: seq<TrackInfo>)
    requires InnerPairs(infos, n)
    ensures var g := TakenAll(n, infos, 0);
      |g.groups| == |g.m| == n && forall x :: 0 <= x < n ==> g.m[x] == -1 && g.groups[x] == [x]
  {
    hide Forest;
  }

  lemma LinkedUnder(g: Grouping, t: TrackInfo, c: nat, r: nat)
    requires Takable(g, t) && t.mergedIndex == c && t.currentIndex == r && c < r && g.m[c] < 0 && g.m[r] < 0
    ensures Links(g, t) && Child(g.m, t) == c && Stays(g, t) == r
    ensures var h := Taken(g, t);
      && h.m == g.m[c := r] && h.groups == g.groups[r := g.groups[r] + [c]] && |h.m| == |h.groups| == |g.m|
  {
  }

  // ---- the program ----

  /** The indexes of the survivors and all trackables with their weights: what survives are the roots in their old
      order, no two of them close to each other, each weighing one more than what was linked to it directly. */
  method UniteInSingleStage(bodies: seq<Body>, distance: (nat, nat) -> real, uniteDistance: real)
    returns (merged: seq<nat>, placed: seq<Body>, weights: seq<nat>, ghost infos: seq<TrackInfo>, ghost m: seq<int>,
             ghost s: Shape, ghost groups: seq<seq<nat>>)
    ensures var n := |bodies|; |m| == n == |weights| && Forest(m, s) && GroupsOk(m, groups) && merged == Roots(m, n)
    ensures forall i: nat, j: nat :: j < i < |m| && m[i] < 0 && m[j] < 0 ==> distance(i, j) > uniteDistance
    ensures forall x: nat, y: nat :: x < |m| && y < |m| && s.root[x] == s.root[y] ==>
      LinkedByCloseness(|m|, Within(distance, uniteDistance), x, y)
    ensures forall i: nat, j: nat :: j < i < |m| && distance(i, j) <= uniteDistance ==>
      s.root[i] == s.root[j] || (m[i] >= 0 && m[j] >= 0)
    ensures forall x :: 0 <= x < |m| ==> weights[x] == |groups[x]|
    ensures AreInnerPairs(infos, |bodies|, distance, Within(distance, uniteDistance)) && ByDistance(infos)
    ensures InnerPairs(infos, |bodies|) && TakenAll(|bodies|, infos, |infos|) == Grouping(m, s, groups)
    ensures placed == Placed(bodies, infos, |infos|)
  {
    var n, close := |bodies|, Within(distance, uniteDistance);
    var pairs := CollectInnerPairs(n, distance, close);
    var sorted := SortByDistance(pairs);
    infos := sorted;
    SortedInnerPairs(pairs, infos, n, distance, close);
    var mixedIndex;
    mixedIndex, placed, weights, s, groups := LinkAll(bodies, sorted);
    m := mixedIndex[..];
    TakenGroupsAreOk(n, infos, |infos|);
    TakenAreJoined(n, infos, |infos|);
    TreesAreClose(infos, n, distance, close, s);
    RootsAreApart(infos, m, distance, close);
    CloseAreJoined(infos, m, s, distance, close);
    merged := EraseLinked(mixedIndex);
  }

  /** From the back, every entry that was linked to another one is taken out. */
  method EraseLinked(mixedIndex: array<int>) returns (merged: seq<nat>)
    ensures merged == Roots(mixedIndex[..], mixedIndex.Length)
  {
    ghost var m := mixedIndex[..];
    var n := mixedIndex.Length;
    merged := seq(n, k requires 0 <= k < n => k);
    var i := n;
    while i > 0
      invariant 0 <= i <= n && merged == Erased(m, i)
    {
      i := i - 1;
      ErasedIs(m, i + 1);
      if mixedIndex[i] >= 0 {
        merged := merged[..i] + merged[i + 1..];
      }
    }
    ErasedIs(m, 0);
    RootsFromIsRoots(m, 0);
  }

  method LinkAll(bodies: seq<Body>, infos: seq<TrackInfo>)
    returns (mixedIndex: array<int>, placed: seq<Body>, weights: seq<nat>, ghost s: Shape, ghost groups: seq<seq<nat>>)
    requires InnerPairs(infos, |bodies|)
    ensures fresh(mixedIndex) && mixedIndex.Length == |bodies| == |weights| == |groups|
    ensures TakenAll(|bodies|, infos, |infos|) == Grouping(mixedIndex[..], s, groups)
    ensures placed == Placed(bodies, infos, |infos|)
    ensures forall x :: 0 <= x < |weights| ==> weights[x] == |groups[x]|
  {
    hide Forest, Takes, InnerPairs, GroupsOk, SelfRoots, TakenAll;
    hide MixWith, Ratio, Reached, Placed, WithLink;
    var n := |bodies|;
    var own;
    mixedIndex, own := StartGroups(n);
    placed, weights := bodies, seq(n, _ => 1);
    ghost var u := Uniting(Grouping(mixedIndex[..], SelfRoots(n), own), placed, weights);
    ReachedAtFirst(bodies, infos, u);
    var i := 0;
    while i < |infos|
      invariant 0 <= i <= |infos| && Reached(bodies, infos, i, u)
      invariant mixedIndex[..] == u.g.m && placed == u.placed && weights == u.weights
    {
      ReachedIs(bodies, infos, i, u);
      var t := infos[i];
      var link, s' := LinkCandidate(mixedIndex, t, u.g.s);
      ReachedNext(bodies, infos, i, u, link, mixedIndex[..], s');
      if link.Some? {
        var (c, r) := link.value;
        WithLinkIs(u, c, r, mixedIndex[..], s');
        weights := weights[r := weights[r] + 1];
        placed := placed[r := MixWith(placed[r], placed[c], Ratio(weights[c], weights[r]))];
        u := WithLink(u, c, r, mixedIndex[..], s');
      } else {
        u := u.(g := Grouping(mixedIndex[..], s', u.g.groups));
      }
      i := i + 1;
    }
    ReachedIs(bodies, infos, i, u);
    s, groups := u.g.s, u.g.groups;
  }

  /** The forest with the trackables and their weights. */
  datatype Uniting = Uniting(g: Grouping, placed: seq<Body>, weights: seq<nat>)

  /** What the first k candidates lead to. */
  ghost predicate Reached(bodies: seq<Body>, infos: seq<TrackInfo>, k: nat, u: Uniting) {
    && k <= |infos| && InnerPairs(infos, |bodies|)
    && TakenAll(|bodies|, infos, k) == u.g && u.placed == Placed(bodies, infos, k)
    && |u.weights| == |bodies| && forall x :: 0 <= x < |u.weights| ==> u.weights[x] == |u.g.groups[x]|
  }

  lemma ReachedIs(bodies: seq<Body>, infos: seq<TrackInfo>, k: nat, u: Uniting)
    requires Reached(bodies, infos, k, u)
    ensures k <= |infos| && InnerPairs(infos, |bodies|) && Forest(u.g.m, u.g.s) && |u.g.m| == |bodies|
    ensures TakenAll(|bodies|, infos, k) == u.g && u.placed == Placed(bodies, infos, k)
    ensures |u.placed| == |u.g.groups| == |u.weights| == |bodies|
    ensures forall x :: 0 <= x < |u.weights| ==> u.weights[x] == |u.g.groups[x]|
    ensures k < |infos| ==> infos[k].currentIndex < |bodies| && infos[k].mergedIndex < |bodies|
  {
    hide Forest, Placed;
  }

  lemma ReachedAtFirst(bodies: seq<Body>, infos: seq<TrackInfo>, u: Uniting)
    requires InnerPairs(infos, |bodies|) && |u.g.m| == |u.g.groups| == |u.weights| == |bodies| && u.placed == bodies
    requires u.g.s == SelfRoots(|bodies|) && forall x :: 0 <= x < |bodies| ==>
      u.g.m[x] == -1 && u.g.groups[x] == [x] && u.weights[x] == 1
    ensures Reached(bodies, infos, 0, u)
  {
    assert u.g.m == Ungrouped(|bodies|).m && u.g.groups == Ungrouped(|bodies|).groups;
  }

  ghost function WithLink(u: Uniting, c: nat, r: nat, m': seq<int>, s': Shape): Uniting
    requires c < |u.placed| == |u.weights| == |u.g.groups| && r < |u.placed|
  {
    Uniting(Grouping(m', s', u.g.groups[r := u.g.groups[r] + [c]]),
            u.placed[r := Joint(u.placed[r], u.placed[c], u.weights[r], u.weights[c])],
            u.weights[r := u.weights[r] + 1])
  }

  lemma WithLinkIs(u: Uniting, c: nat, r: nat, m': seq<int>, s': Shape)
    requires c < |u.placed| == |u.weights| == |u.g.groups| && r < |u.placed| && c != r
    ensures var u', more := WithLink(u, c, r, m', s'), u.weights[r := u.weights[r] + 1];
      && u'.g.m == m' && u'.weights == more
      && u'.placed == u.placed[r := MixWith(u.placed[r], u.placed[c], Ratio(more[c], more[r]))]
  {
    hide MixWith, Ratio;
  }

  ghost predicate ReachedAfter(bodies: seq<Body>, infos: seq<TrackInfo>, k: nat, u: Uniting, link: Option<(nat, nat)>,
                               m': seq<int>, s': Shape) {
    if link.None? then Reached(bodies, infos, k, u.(g := Grouping(m', s', u.g.groups)))
    else
      var (c, r) := link.value;
      && c < |u.placed| == |u.weights| == |u.g.groups| && r < |u.placed| && c != r
      && Reached(bodies, infos, k, WithLink(u, c, r, m', s'))
  }

  lemma ReachedNext(bodies: seq<Body>, infos: seq<TrackInfo>, k: nat, u: Uniting, link: Option<(nat, nat)>,
                    m': seq<int>, s': Shape)
    requires Reached(bodies, infos, k, u) && k < |infos| && Takes(u.g.m, u.g.s, infos[k], link, m', s')
    ensures ReachedAfter(bodies, infos, k + 1, u, link, m', s')
  {
    hide Forest, Takable, Takes, Taken, TakenAll, Links, Stays, Child, InnerPairs;
    hide Reached, Placed, WithLink;
    ReachedIs(bodies, infos, k, u);
    TakenNext(|bodies|, infos, k);
    TakesIsTaken(u.g, infos[k], link, m', s');
    LinkIsKnown(u.g, infos[k], link, m', s');
    if link.Some? {
      ReachedByLink(bodies, infos, k, u, link.value.0, link.value.1, m', s');
    } else {
      PlacedNext(bodies, infos, k);
      ReachedIf(bodies, infos, k + 1, u.(g := Grouping(m', s', u.g.groups)));
    }
  }

  lemma ReachedByLink(bodies: seq<Body>, infos: seq<TrackInfo>, k: nat, u: Uniting, c: nat, r: nat, m': seq<int>,
                      s': Shape)
    requires Reached(bodies, infos, k, u) && k < |infos| && Takable(u.g, infos[k]) && Links(u.g, infos[k])
    requires c == Child(u.g.m, infos[k]) && r == Stays(u.g, infos[k]) && r != c < |u.g.m|
    requires Taken(u.g, infos[k]) == Grouping(m', s', u.g.groups[r := u.g.groups[r] + [c]])
    ensures c < |u.placed| == |u.weights| == |u.g.groups| && r < |u.placed|
    ensures Reached(bodies, infos, k + 1, WithLink(u, c, r, m', s'))
  {
    hide Forest, Takable, Taken, TakenAll, Links, Stays, Child, InnerPairs;
    hide Reached, Placed, Joint;
    ReachedIs(bodies, infos, k, u);
    PlacedNext(bodies, infos, k);
    TakenNext(|bodies|, infos, k);
    OneMore(u.g.groups, u.weights, r, c);
    ReachedIf(bodies, infos, k + 1, WithLink(u, c, r, m', s'));
  }

  lemma ReachedIf(bodies: seq<Body>, infos: seq<TrackInfo>, k: nat, u: Uniting)
    requires k <= |infos| && InnerPairs(infos, |bodies|)
    requires TakenAll(|bodies|, infos, k) == u.g && u.placed == Placed(bodies, infos, k)
    requires |u.weights| == |u.g.groups| && forall x :: 0 <= x < |u.weights| ==> u.weights[x] == |u.g.groups[x]|
    ensures Reached(bodies, infos, k, u)
  {
    hide Forest, Placed;
  }

  lemma OneMore(groups: seq<seq<nat>>, weights: seq<nat>, r: nat, c: nat)
    requires r < |groups| == |weights| && forall x :: 0 <= x < |weights| ==> weights[x] == |groups[x]|
    ensures var groups', weights' := groups[r := groups[r] + [c]], weights[r := weights[r] + 1];
      |groups'| == |weights'| && forall x :: 0 <= x < |weights'| ==> weights'[x] == |groups'[x]|
  {
  }

  lemma TakenNext(n: nat, infos: seq<TrackInfo>, k: nat)
    requires k < |infos| && InnerPairs(infos, n)
    ensures Takable(TakenAll(n, infos, k), infos[k])
    ensures TakenAll(n, infos, k + 1) == Taken(TakenAll(n, infos, k), infos[k])
  {
    hide Forest, Taken;
  }

  lemma LinkIsKnown(g: Grouping, t: TrackInfo, link: Option<(nat, nat)>, m': seq<int>, s': Shape)
    requires Takable(g, t) && Takes(g.m, g.s, t, link, m', s')
    ensures Links(g, t) <==> link.Some?
    ensures link.Some? ==> link.value == (Child(g.m, t), Stays(g, t)) && Stays(g, t) != Child(g.m, t) < |g.m|
  {
  }
}
