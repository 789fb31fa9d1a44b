/** Cutting an oversized group of detected objects in two, recursively: the two objects farthest apart
    attract the others, and a half that is still too large is cut again.  Sizes, spreads and hull tests
    are measurements of a group and enter as functions of it.  */
module ObjectSplit {
  import opened Common

  datatype Point = Point(x: real, y: real, z: real)

  /** What is measured of objects and of groups of objects; objects are named by their index. */
  datatype World = World(center: nat -> Point, size: seq<nat> -> real, timeDiff: seq<nat> -> real,
                         msf: seq<nat> -> real, firstIsHull: seq<nat> -> bool, secondIsHull: seq<nat> -> bool)

  /** The square of the distance between two centres: ordered like the distance itself. */
  function Apart(w: World, a: nat, b: nat): real {
    var p, q := w.center(a), w.center(b);
    Square(p.x - q.x) + Square(p.y - q.y) + Square(p.z - q.z)
  }

  lemma ApartIsPositive(w: World, a: nat, b: nat)
    ensures Apart(w, a, b) >= 0.0 && Apart(w, a, a) == 0.0
    ensures Apart(w, a, b) > 0.0 <==> w.center(a) != w.center(b)
  {
    var p, q := w.center(a), w.center(b);
    SquareIsPositive(p.x - q.x);
    SquareIsPositive(p.y - q.y);
    SquareIsPositive(p.z - q.z);
    ProductSigns(0.0, 0.0);
    assert p != q ==> p.x - q.x != 0.0 || p.y - q.y != 0.0 || p.z - q.z != 0.0;
  }

  /** Distances do not depend on the direction. */
  lemma ApartIsSymmetric(w: World, a: nat, b: nat)
    ensures Apart(w, a, b) == Apart(w, b, a)
  {
    var p, q := w.center(a), w.center(b);
    SquareSwaps(p.x, q.x);
    SquareSwaps(p.y, q.y);
    SquareSwaps(p.z, q.z);
  }

  lemma SquareSwaps(a: real, b: real)
    ensures Square(a - b) == Square(b - a)
  {
    assert (a - b) * (a - b) == (b - a) * (b - a);
  }

  // ---- the farthest pair ----

  datatype Best = Best(first: nat, second: nat, dmax: real)

  function Better(w: World, objs: seq<nat>, b: Best, o1: nat, o2: nat): Best
    requires o1 < |objs| && o2 < |objs|
  {
    if Apart(w, objs[o1], objs[o2]) > b.dmax then Best(o1, o2, Apart(w, objs[o1], objs[o2])) else b
  }

  /** The pairs from (o1, o2) on, in the order of the two loops. */
  function Scan(w: World, objs: seq<nat>, o1: nat, o2: nat, b: Best): Best
    requires o2 < o1 < |objs|
    decreases o1, o2
  {
    var c := Better(w, objs, b, o1, o2);
    if o2 > 0 then Scan(w, objs, o1, o2 - 1, c)
    else if o1 > 1 then Scan(w, objs, o1 - 1, o1 - 2, c)
    else c
  }

  ghost predicate Attained(w: World, objs: seq<nat>, b: Best) {
    b.dmax == 0.0 ||
    (b.second < b.first < |objs| && b.dmax == Apart(w, objs[b.first], objs[b.second]) && b.dmax > 0.0)
  }

  /** The scan ends with a pair whose distance no later pair exceeds. */
  lemma {:induction false} ScanIsFarthest(w: World, objs: seq<nat>, o1: nat, o2: nat, b: Best)
    requires o2 < o1 < |objs| && Attained(w, objs, b)
    ensures var r := Scan(w, objs, o1, o2, b);
      && Attained(w, objs, r) && r.dmax >= b.dmax
      && forall i, j :: 0 <= j < i < |objs| && (i < o1 || (i == o1 && j <= o2)) ==> Apart(w, objs[i], objs[j]) <= r.dmax
    decreases o1, o2
  {
    hide Apart;
    ApartIsPositive(w, objs[o1], objs[o2]);
    var c := Better(w, objs, b, o1, o2);
    if o2 > 0 {
      ScanIsFarthest(w, objs, o1, o2 - 1, c);
    } else if o1 > 1 {
      ScanIsFarthest(w, objs, o1 - 1, o1 - 2, c);
    }
  }

  /** What the search starts from; without a positive distance its indexes mean nothing. */
  const NO_PAIR := Best(0, 0, 0.0)

  function Farthest(w: World, objs: seq<nat>): Best
    requires |objs| > 1
  {
    Scan(w, objs, |objs| - 1, |objs| - 2, NO_PAIR)
  }

  /** The search has found a pair, and so has set its indexes. */
  predicate Spread(w: World, objs: seq<nat>) {
    |objs| > 1 && Farthest(w, objs).dmax > 0.0
  }

  /** A pair is found iff the centres are not all the same; it is then a farthest one. */
  lemma FarthestIsProper(w: World, objs: seq<nat>)
    requires |objs| > 1
    ensures Spread(w, objs) <==> exists i, j :: 0 <= j < i < |objs| && w.center(objs[i]) != w.center(objs[j])
    ensures var f := Farthest(w, objs);
      Spread(w, objs) ==> f.second < f.first < |objs| && f.dmax == Apart(w, objs[f.first], objs[f.second])
    ensures forall i, j :: 0 <= j < i < |objs| ==> Apart(w, objs[i], objs[j]) <= Farthest(w, objs).dmax
  {
    hide Apart, Scan;
    ScanIsFarthest(w, objs, |objs| - 1, |objs| - 2, NO_PAIR);
    var f := Farthest(w, objs);
    if Spread(w, objs) {
      ApartIsPositive(w, objs[f.first], objs[f.second]);
    }
    if i, j :| 0 <= j < i < |objs| && w.center(objs[i]) != w.center(objs[j]) {
      ApartIsPositive(w, objs[i], objs[j]);
    }
  }

  // ---- the two halves ----

  predicate Nearer(w: World, a: nat, b: nat, x: nat) {
    Apart(w, a, x) < Apart(w, b, x)
  }

  /** The objects on one side, from the last to the first. */
  function Side(w: World, objs: seq<nat>, a: nat, b: nat, near: bool): seq<nat> {
    if objs == [] then []
    else
      var last := objs[|objs| - 1];
      (if Nearer(w, a, b, last) == near then [last] else []) + Side(w, objs[..|objs| - 1], a, b, near)
  }

  function FirstHalf(w: World, objs: seq<nat>): seq<nat>
    requires Spread(w, objs)
  {
    FarthestIsProper(w, objs);
    var f := Farthest(w, objs);
    Side(w, objs, objs[f.first], objs[f.second], true)
  }

  function SecondHalf(w: World, objs: seq<nat>): seq<nat>
    requires Spread(w, objs)
  {
    FarthestIsProper(w, objs);
    var f := Farthest(w, objs);
    Side(w, objs, objs[f.first], objs[f.second], false)
  }

  lemma {:induction false} SidesPartition(w: World, objs: seq<nat>, a: nat, b: nat)
    ensures multiset(Side(w, objs, a, b, true)) + multiset(Side(w, objs, a, b, false)) == multiset(objs)
    ensures |Side(w, objs, a, b, true)| + |Side(w, objs, a, b, false)| == |objs|
  {
    if objs != [] {
      assert objs == objs[..|objs| - 1] + [objs[|objs| - 1]];
      SidesPartition(w, objs[..|objs| - 1], a, b);
    }
  }

  lemma {:induction false} SideHas(w: World, objs: seq<nat>, a: nat, b: nat, i: nat)
    requires i < |objs|
    ensures objs[i] in Side(w, objs, a, b, Nearer(w, a, b, objs[i]))
  {
    if i < |objs| - 1 {
      SideHas(w, objs[..|objs| - 1], a, b, i);
    }
  }

  /** Both halves are non-empty, strictly smaller, and together are the group, whenever two centres differ. */
  lemma HalvesAreProper(w: World, objs: seq<nat>)
    requires Spread(w, objs)
    ensures 0 < |FirstHalf(w, objs)| < |objs| && 0 < |SecondHalf(w, objs)| < |objs|
    ensures multiset(FirstHalf(w, objs)) + multiset(SecondHalf(w, objs)) == multiset(objs)
  {
    hide Apart, Side, Farthest;
    FarthestIsProper(w, objs);
    var f := Farthest(w, objs);
    var a, b := objs[f.first], objs[f.second];
    ApartIsPositive(w, a, b);
    ApartIsPositive(w, b, a);
    ApartIsSymmetric(w, a, b);
    SidesPartition(w, objs, a, b);
    SideHas(w, objs, a, b, f.first);
    SideHas(w, objs, a, b, f.second);
  }

  // ---- the recursive split ----

  predicate TooLarge(w: World, objs: seq<nat>, maxSize: real) {
    maxSize > 0.0 && |objs| > 1 && w.size(objs) > maxSize + w.timeDiff(objs)
  }

  predicate CutsInTwo(w: World, objs: seq<nat>) {
    w.msf(objs) < 1.0 || w.firstIsHull(objs) || w.secondIsHull(objs)
  }

  /** The split is defined: the centres of a group that is too large are not all the same, nor are those of the
      halves that are too large, and so on.  Otherwise the program uses indexes it has not set. */
  ghost predicate Defined(w: World, objs: seq<nat>, maxSize: real)
    decreases |objs|
  {
    TooLarge(w, objs, maxSize) ==> Spread(w, objs) && DefinedHalves(w, objs, maxSize + w.timeDiff(objs))
  }

  ghost predicate DefinedHalves(w: World, objs: seq<nat>, maxSize: real)
    requires Spread(w, objs)
    decreases |objs|, 0
  {
    HalvesAreProper(w, objs);
    CutsInTwo(w, objs) ==> Defined(w, FirstHalf(w, objs), maxSize) && Defined(w, SecondHalf(w, objs), maxSize)
  }

  /** The groups for which trackables are created, in order. */
  function Created(w: World, objs: seq<nat>, maxSize: real): seq<seq<nat>>
    requires Defined(w, objs, maxSize)
    decreases |objs|, 1
  {
    if TooLarge(w, objs, maxSize) then
      var (prob, created) := Split(w, objs, maxSize + w.timeDiff(objs));
      if prob == 1.0 then created else created + [objs]
    else [objs]
  }

  /** The probability reported for a group, and the groups created if it was cut. */
  function Split(w: World, objs: seq<nat>, maxSize: real): (real, seq<seq<nat>>)
    requires Spread(w, objs) && DefinedHalves(w, objs, maxSize)
    decreases |objs|, 0
  {
    HalvesAreProper(w, objs);
    if CutsInTwo(w, objs) then
      (1.0, Created(w, FirstHalf(w, objs), maxSize) + Created(w, SecondHalf(w, objs), maxSize))
    else
      (1.0 / w.msf(objs), [])
  }

  ghost function Bag(groups: seq<seq<nat>>): multiset<nat> {
    if groups == [] then multiset{} else multiset(groups[0]) + Bag(groups[1..])
  }

  lemma {:induction false} BagConcat(a: seq<seq<nat>>, b: seq<seq<nat>>)
    ensures Bag(a + b) == Bag(a) + Bag(b)
  {
    if a == [] {
      assert a + b == b;
    } else {
      assert (a + b)[1..] == a[1..] + b;
      BagConcat(a[1..], b);
    }
  }

  /** The group is reported as cut although nothing was created for it: the spread ratio is exactly one and
      neither half is a hull. */
  predicate Vanishes(w: World, objs: seq<nat>) {
    w.msf(objs) == 1.0 && !w.firstIsHull(objs) && !w.secondIsHull(objs)
  }

  /** No group met on the way down vanishes. */
  ghost predicate NothingVanishes(w: World, objs: seq<nat>, maxSize: real)
    requires Defined(w, objs, maxSize)
    decreases |objs|
  {
    TooLarge(w, objs, maxSize) ==> !Vanishes(w, objs) && NoHalfVanishes(w, objs, maxSize + w.timeDiff(objs))
  }

  ghost predicate NoHalfVanishes(w: World, objs: seq<nat>, maxSize: real)
    requires Spread(w, objs) && DefinedHalves(w, objs, maxSize)
    decreases |objs|, 0
  {
    HalvesAreProper(w, objs);
    CutsInTwo(w, objs) ==>
      NothingVanishes(w, FirstHalf(w, objs), maxSize) && NothingVanishes(w, SecondHalf(w, objs), maxSize)
  }

  lemma CreatedCases(w: World, objs: seq<nat>, maxSize: real)
    requires Defined(w, objs, maxSize)
    ensures TooLarge(w, objs, maxSize) ==> |objs| > 1
    ensures !TooLarge(w, objs, maxSize) ==> Created(w, objs, maxSize) == [objs] && NothingVanishes(w, objs, maxSize)
    ensures TooLarge(w, objs, maxSize) && Vanishes(w, objs) ==>
      Created(w, objs, maxSize) == [] && !NothingVanishes(w, objs, maxSize)
    ensures TooLarge(w, objs, maxSize) && !Vanishes(w, objs) && !CutsInTwo(w, objs) ==>
      Created(w, objs, maxSize) == [objs] && NothingVanishes(w, objs, maxSize)
  {
    hide Apart, Spread, FirstHalf, SecondHalf;
    if TooLarge(w, objs, maxSize) && !CutsInTwo(w, objs) && !Vanishes(w, objs) {
      NotOne(w.msf(objs));
    }
  }

  lemma CutCreates(w: World, objs: seq<nat>, maxSize: real)
    requires Defined(w, objs, maxSize) && TooLarge(w, objs, maxSize) && CutsInTwo(w, objs)
    ensures Spread(w, objs)
    ensures var max := maxSize + w.timeDiff(objs);
      && Defined(w, FirstHalf(w, objs), max) && Defined(w, SecondHalf(w, objs), max)
      && Created(w, objs, maxSize) == Created(w, FirstHalf(w, objs), max) + Created(w, SecondHalf(w, objs), max)
      && (NothingVanishes(w, objs, maxSize) <==>
            NothingVanishes(w, FirstHalf(w, objs), max) && NothingVanishes(w, SecondHalf(w, objs), max))
  {
    hide Apart, Spread, FirstHalf, SecondHalf;
    HalvesAreProper(w, objs);
  }

  /** The created groups never hold an object twice, and they partition the group exactly when no group on
      the way down vanishes. */
  lemma {:induction false} SplitPartitions(w: World, objs: seq<nat>, maxSize: real)
    requires objs != [] && Defined(w, objs, maxSize)
    ensures Bag(Created(w, objs, maxSize)) <= multiset(objs)
    ensures Bag(Created(w, objs, maxSize)) == multiset(objs) <==> NothingVanishes(w, objs, maxSize)
    decreases |objs|
  {
    hide *;
    CreatedCases(w, objs, maxSize);
    BagOfOne(objs);
    BagOfNone(objs);
    if TooLarge(w, objs, maxSize) && CutsInTwo(w, objs) {
      CutCreates(w, objs, maxSize);
      var max, a, b := maxSize + w.timeDiff(objs), FirstHalf(w, objs), SecondHalf(w, objs);
      HalvesAreProper(w, objs);
      SplitPartitions(w, a, max);
      SplitPartitions(w, b, max);
      BagConcat(Created(w, a, max), Created(w, b, max));
      SumsAreEqualIffPartsAre(Bag(Created(w, a, max)), multiset(a), Bag(Created(w, b, max)), multiset(b));
    }
  }

  lemma BagOfNone(g: seq<nat>)
    requires g != []
    ensures Bag([]) <= multiset(g) && Bag([]) != multiset(g)
  {
    assert g[0] in multiset(g);
  }

  lemma BagOfOne(g: seq<nat>)
    ensures Bag([g]) == multiset(g)
  {
    assert [g][1..] == [];
  }

  lemma NotOne(m: real)
    requires m > 1.0
    ensures 1.0 / m != 1.0
  {
    assert (1.0 / m) * m == 1.0;
  }

  lemma SumsAreEqualIffPartsAre(a: multiset<nat>, p: multiset<nat>, b: multiset<nat>, q: multiset<nat>)
    requires a <= p && b <= q
    ensures a + b <= p + q
    ensures a + b == p + q <==> a == p && b == q
  {
    if a + b == p + q {
      forall x ensures a[x] == p[x] && b[x] == q[x] {
        assert (a + b)[x] == (p + q)[x];
      }
    }
  }

  // ---- when the split is defined ----

  ghost predicate DistinctCentres(w: World, objs: seq<nat>) {
    forall i, j :: 0 <= i < j < |objs| ==> w.center(objs[i]) != w.center(objs[j])
  }

  lemma {:induction false} SideIsSub(w: World, objs: seq<nat>, a: nat, b: nat, near: bool)
    requires DistinctCentres(w, objs)
    ensures DistinctCentres(w, Side(w, objs, a, b, near))
    ensures forall x :: x in Side(w, objs, a, b, near) ==> x in objs
  {
    if objs != [] {
      var front, last := objs[..|objs| - 1], objs[|objs| - 1];
      SideIsSub(w, front, a, b, near);
      var rest := Side(w, front, a, b, near);
      forall k | 0 <= k < |rest| ensures w.center(rest[k]) != w.center(last) {
        assert rest[k] in front;
        var i :| 0 <= i < |front| && front[i] == rest[k];
      }
    }
  }

  /** Without a size limit nothing is split, and with pairwise distinct centres every split is defined. */
  lemma {:induction false} SplitIsDefined(w: World, objs: seq<nat>, maxSize: real)
    requires maxSize <= 0.0 || DistinctCentres(w, objs)
    ensures Defined(w, objs, maxSize)
    decreases |objs|
  {
    hide Side, DistinctCentres, Farthest;
    if TooLarge(w, objs, maxSize) {
      DistinctIsSpread(w, objs);
      HalvesAreProper(w, objs);
      var f, max := Farthest(w, objs), maxSize + w.timeDiff(objs);
      FarthestIsProper(w, objs);
      SideIsSub(w, objs, objs[f.first], objs[f.second], true);
      SideIsSub(w, objs, objs[f.first], objs[f.second], false);
      SplitIsDefined(w, FirstHalf(w, objs), max);
      SplitIsDefined(w, SecondHalf(w, objs), max);
    }
  }

  lemma DistinctIsSpread(w: World, objs: seq<nat>)
    requires |objs| > 1 && DistinctCentres(w, objs)
    ensures Spread(w, objs)
  {
    FarthestIsProper(w, objs);
    assert w.center(objs[0]) != w.center(objs[1]);
  }

  // ---- the program ----

  method FindFarthest(w: World, objs: seq<nat>) returns (oi1: nat, oi2: nat, dmax: real)
    requires |objs| > 1
    ensures Best(oi1, oi2, dmax) == Farthest(w, objs)
  {
    hide Apart;
    oi1, oi2, dmax := 0, 0, 0.0;
    var o1 := |objs| - 1;
    while o1 > 0
      invariant 0 <= o1 < |objs|
      invariant Farthest(w, objs) ==
        if o1 == 0 then Best(oi1, oi2, dmax) else Scan(w, objs, o1, o1 - 1, Best(oi1, oi2, dmax))
    {
      var o2 := o1 - 1;
      while o2 >= 0
        invariant -1 <= o2 < o1
        invariant Farthest(w, objs) ==
          if o2 >= 0 then Scan(w, objs, o1, o2, Best(oi1, oi2, dmax))
          else if o1 > 1 then Scan(w, objs, o1 - 1, o1 - 2, Best(oi1, oi2, dmax))
          else Best(oi1, oi2, dmax)
      {
        var d := Apart(w, objs[o1], objs[o2]);
        if d > dmax {
          oi1, oi2, dmax := o1, o2, d;
        }
        o2 := o2 - 1;
      }
      o1 := o1 - 1;
    }
  }

  lemma SideOfNone(w: World, objs: seq<nat>, a: nat, b: nat)
    requires objs == []
    ensures Side(w, objs, a, b, true) == [] == Side(w, objs, a, b, false)
  {
  }

  lemma SideUnfolds(w: World, objs: seq<nat>, i: nat, a: nat, b: nat, near: bool)
    requires i < |objs|
    ensures Nearer(w, a, b, objs[i]) == near ==>
      Side(w, objs[..i + 1], a, b, near) == [objs[i]] + Side(w, objs[..i], a, b, near)
    ensures Nearer(w, a, b, objs[i]) != near ==> Side(w, objs[..i + 1], a, b, near) == Side(w, objs[..i], a, b, near)
  {
    var front, rest := objs[..i + 1], Side(w, objs[..i], a, b, near);
    assert front[..|front| - 1] == objs[..i] && front[|front| - 1] == objs[i];
    assert Side(w, front, a, b, near) == (if Nearer(w, a, b, objs[i]) == near then [objs[i]] else []) + rest;
    assert [] + rest == rest;
  }

  method CollectSides(w: World, objs: seq<nat>, a: nat, b: nat) returns (objs1: seq<nat>, objs2: seq<nat>)
    ensures objs1 == Side(w, objs, a, b, true) && objs2 == Side(w, objs, a, b, false)
  {
    hide Apart, Side;
    objs1, objs2 := [], [];
    var i := |objs|;
    assert objs[..i] == objs;
    while i > 0
      invariant 0 <= i <= |objs|
      invariant Side(w, objs, a, b, true) == objs1 + Side(w, objs[..i], a, b, true)
      invariant Side(w, objs, a, b, false) == objs2 + Side(w, objs[..i], a, b, false)
    {
      i := i - 1;
      SideUnfolds(w, objs, i, a, b, true);
      SideUnfolds(w, objs, i, a, b, false);
      if Apart(w, a, objs[i]) < Apart(w, b, objs[i]) {
        objs1 := objs1 + [objs[i]];
      } else {
        objs2 := objs2 + [objs[i]];
      }
    }
    SideOfNone(w, objs[..i], a, b);
  }

  /** The list of trackables under construction, one group of objects for each. */
  class Merged {
    var groups: seq<seq<nat>>

    constructor ()
      ensures groups == []
    {
      groups := [];
    }

    method AddObjects(w: World, objs: seq<nat>, objectMaxSize: real)
      requires Defined(w, objs, objectMaxSize)
      modifies this
      ensures groups == old(groups) + Created(w, objs, objectMaxSize)
      decreases |objs|, 1
    {
      if objectMaxSize > 0.0 && |objs| > 1 {
        var maxSize := objectMaxSize + w.timeDiff(objs);
        if w.size(objs) > maxSize {
          var splitProb := SplitObjects(w, objs, maxSize);
          if splitProb == 1.0 {
            return;
          }
        }
      }
      groups := groups + [objs];
    }

    method SplitObjects(w: World, objs: seq<nat>, maxSize: real) returns (prob: real)
      requires Spread(w, objs) && DefinedHalves(w, objs, maxSize)
      modifies this
      ensures prob == Split(w, objs, maxSize).0 && groups == old(groups) + Split(w, objs, maxSize).1
      decreases |objs|, 0
    {
      hide Apart, Side;
      FarthestIsProper(w, objs);
      HalvesAreProper(w, objs);
      var oi1, oi2, dmax := FindFarthest(w, objs);
      var objs1, objs2 := CollectSides(w, objs, objs[oi1], objs[oi2]);
      var isHull1, isHull2 := false, false;
      var msf := w.msf(objs);
      if msf >= 1.0 {
        isHull1 := w.firstIsHull(objs);
        if !isHull1 {
          isHull2 := w.secondIsHull(objs);
        }
      }
      if msf < 1.0 || isHull1 || isHull2 {
        AddObjects(w, objs1, maxSize);
        AddObjects(w, objs2, maxSize);
        return 1.0;
      }
      return 1.0 / msf;
    }
  }
}
