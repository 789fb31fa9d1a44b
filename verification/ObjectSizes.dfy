/** How large the groups are that a split leaves, and which of the two ends an object goes with. */
module ObjectSizes {
  import opened Common
  import opened ObjectSplit

  // ---- the two halves ----

  /** Distances are those of space: along the three axes they add up as squares. */
  lemma ApartIsDistance(w: World, a: nat, b: nat, c: nat)
    requires var p, q, r := w.center(a), w.center(b), w.center(c);
      (q.x == p.x && q.y == p.y && r.z == q.z) || (q.x == p.x && q.z == p.z && r.y == q.y) ||
      (q.y == p.y && q.z == p.z && r.x == q.x)
    ensures Apart(w, a, c) == Apart(w, a, b) + Apart(w, b, c)
    ensures var p, q := w.center(a), w.center(b);
      q.x == p.x && q.y == p.y ==> Apart(w, a, b) == Times(q.z - p.z, q.z - p.z)
  {
    hide Times;
    MirroredSquare(w.center(a), w.center(b));
    ZeroSquare();
  }

  lemma ZeroSquare()
    ensures Square(0.0) == 0.0
  {
  }

  lemma MirroredSquare(p: Point, q: Point)
    ensures Square(p.z - q.z) == Times(q.z - p.z, q.z - p.z)
  {
  }

  /** Every object goes with the end it is nearer to; with the second one if it is as near to both. */
  lemma {:induction false} SidesAreNearest(w: World, objs: seq<nat>, a: nat, b: nat, x: nat)
    ensures x in Side(w, objs, a, b, true) <==> x in objs && Apart(w, a, x) < Apart(w, b, x)
    ensures x in Side(w, objs, a, b, false) <==> x in objs && Apart(w, a, x) >= Apart(w, b, x)
  {
    hide Apart;
    if objs != [] {
      var front, last := objs[..|objs| - 1], objs[|objs| - 1];
      SidesAreNearest(w, front, a, b, x);
      assert objs == front + [last];
    }
  }

  /** The halves of a group are gathered around two of its objects that are farthest apart. */
  lemma HalvesAreNearest(w: World, objs: seq<nat>)
    requires Spread(w, objs)
    ensures exists i: nat, j: nat :: j < i < |objs| && EndsOf(w, objs, i, j)
  {
    hide Apart, Side, Farthest;
    FarthestIsProper(w, objs);
    var f := Farthest(w, objs);
    forall x ensures
      && (x in FirstHalf(w, objs) <==> x in objs && Apart(w, objs[f.first], x) < Apart(w, objs[f.second], x))
      && (x in SecondHalf(w, objs) <==> x in objs && Apart(w, objs[f.first], x) >= Apart(w, objs[f.second], x))
    {
      SidesAreNearest(w, objs, objs[f.first], objs[f.second], x);
    }
    assert EndsOf(w, objs, f.first, f.second);
  }

  ghost predicate EndsOf(w: World, objs: seq<nat>, i: nat, j: nat)
    requires Spread(w, objs) && i < |objs| && j < |objs|
  {
    && (forall k, l :: 0 <= l < k < |objs| ==> Apart(w, objs[k], objs[l]) <= Apart(w, objs[i], objs[j]))
    && (forall x :: x in FirstHalf(w, objs) <==> x in objs && Apart(w, objs[i], x) < Apart(w, objs[j], x))
    && (forall x :: x in SecondHalf(w, objs) <==> x in objs && Apart(w, objs[i], x) >= Apart(w, objs[j], x))
  }

  // ---- sizes ----

  /** A group that is cut into its halves, one of these perhaps again, and so on. */
  ghost predicate Descends(w: World, path: seq<seq<nat>>) {
    path != [] && forall k :: 0 <= k < |path| - 1 ==>
      Spread(w, path[k]) && (path[k + 1] == FirstHalf(w, path[k]) || path[k + 1] == SecondHalf(w, path[k]))
  }

  /** The size allowed for the last group of a path: the one asked for, and the offset in time of every group on it. */
  ghost function Allowed(w: World, path: seq<seq<nat>>, maxSize: real): real {
    if path == [] then maxSize else Allowed(w, path[..|path| - 1], maxSize) + w.timeDiff(path[|path| - 1])
  }

  /** The objects spread less about two centres than about one, or one of the two parts surrounds the other. */
  predicate FallsApart(w: World, objs: seq<nat>) {
    w.msf(objs) < 1.0 || w.firstIsHull(objs) || w.secondIsHull(objs)
  }

  /** The k-th group of a path has to be cut: sizes are limited, it has several objects, is larger than allowed, and
      falls apart. */
  ghost predicate HasToBeCut(w: World, path: seq<seq<nat>>, k: nat, maxSize: real)
    requires k < |path|
  {
    && Allowed(w, path[..k], maxSize) > 0.0 && |path[k]| > 1 && FallsApart(w, path[k])
    && w.size(path[k]) > Allowed(w, path[..k + 1], maxSize)
  }

  /** A path from a group to one that is left: all before it had to be cut, and it has not. */
  ghost predicate LeadsTo(w: World, path: seq<seq<nat>>, objs: seq<nat>, g: seq<nat>, maxSize: real) {
    && Descends(w, path) && path[0] == objs && path[|path| - 1] == g
    && (forall k :: 0 <= k < |path| - 1 ==> HasToBeCut(w, path, k, maxSize))
    && !HasToBeCut(w, path, |path| - 1, maxSize)
  }

  lemma {:induction false} AllowedFirst(w: World, objs: seq<nat>, path: seq<seq<nat>>, maxSize: real)
    ensures Allowed(w, [objs] + path, maxSize) == Allowed(w, path, maxSize + w.timeDiff(objs))
  {
    var longer := [objs] + path;
    if path == [] {
      assert longer == [objs] && longer[..0] == [];
      assert Allowed(w, [], maxSize) == maxSize;
    } else {
      assert longer[..|longer| - 1] == [objs] + path[..|path| - 1];
      AllowedFirst(w, objs, path[..|path| - 1], maxSize);
    }
  }

  lemma HasToBeCutLater(w: World, objs: seq<nat>, path: seq<seq<nat>>, k: nat, maxSize: real)
    requires k < |path|
    ensures HasToBeCut(w, [objs] + path, k + 1, maxSize) <==> HasToBeCut(w, path, k, maxSize + w.timeDiff(objs))
  {
    hide FallsApart;
    var longer := [objs] + path;
    assert longer[..k + 1] == [objs] + path[..k] && longer[..k + 2] == [objs] + path[..k + 1];
    AllowedFirst(w, objs, path[..k], maxSize);
    AllowedFirst(w, objs, path[..k + 1], maxSize);
  }

  lemma HasToBeCutFirst(w: World, objs: seq<nat>, path: seq<seq<nat>>, maxSize: real)
    ensures HasToBeCut(w, [objs] + path, 0, maxSize) <==>
      maxSize > 0.0 && |objs| > 1 && FallsApart(w, objs) && w.size(objs) > maxSize + w.timeDiff(objs)
  {
    hide FallsApart;
    var longer := [objs] + path;
    assert longer[..0] == [] && longer[..1] == [objs] + [];
    AllowedFirst(w, objs, [], maxSize);
  }

  lemma LongerPath(w: World, objs: seq<nat>, path: seq<seq<nat>>, g: seq<nat>, maxSize: real)
    requires Spread(w, objs) && path != [] && LeadsTo(w, path, path[0], g, maxSize + w.timeDiff(objs))
    requires path[0] == FirstHalf(w, objs) || path[0] == SecondHalf(w, objs)
    requires maxSize > 0.0 && |objs| > 1 && FallsApart(w, objs) && w.size(objs) > maxSize + w.timeDiff(objs)
    ensures LeadsTo(w, [objs] + path, objs, g, maxSize)
  {
    hide Spread, FirstHalf, SecondHalf, HasToBeCut, FallsApart;
    var longer := [objs] + path;
    HasToBeCutFirst(w, objs, path, maxSize);
    forall i: nat | 1 <= i < |longer|
      ensures HasToBeCut(w, longer, i, maxSize) <==> HasToBeCut(w, path, i - 1, maxSize + w.timeDiff(objs))
    {
      HasToBeCutLater(w, objs, path, i - 1, maxSize);
    }
    forall k | 0 <= k < |longer| - 1
      ensures Spread(w, longer[k])
      ensures longer[k + 1] == FirstHalf(w, longer[k]) || longer[k + 1] == SecondHalf(w, longer[k])
      ensures HasToBeCut(w, longer, k, maxSize)
    {
      if k > 0 {
        assert longer[k] == path[k - 1] && longer[k + 1] == path[k];
      }
    }
  }

  /** Every group that is left was reached by cutting groups that had to be cut, and has not to be cut itself: sizes are
      not limited, or it is one object, or no larger than it may be, or it does not fall apart. */
  lemma {:induction false} NothingLeftHasToBeCut(w: World, objs: seq<nat>, maxSize: real, g: seq<nat>)
    returns (path: seq<seq<nat>>)
    requires Defined(w, objs, maxSize) && g in Created(w, objs, maxSize)
    ensures LeadsTo(w, path, objs, g, maxSize)
    decreases |objs|
  {
    hide Defined, Spread, FirstHalf, SecondHalf, Created, HasToBeCut, NothingVanishes;
    CreatedCases(w, objs, maxSize);
    if TooLarge(w, objs, maxSize) && CutsInTwo(w, objs) {
      var max := maxSize + w.timeDiff(objs);
      CutCreates(w, objs, maxSize);
      HalvesAreProper(w, objs);
      var half := if g in Created(w, FirstHalf(w, objs), max) then FirstHalf(w, objs) else SecondHalf(w, objs);
      var rest := NothingLeftHasToBeCut(w, half, max, g);
      path := [objs] + rest;
      LongerPath(w, objs, rest, g, maxSize);
    } else {
      path := [objs];
      assert [objs] == [objs] + [];
      HasToBeCutFirst(w, objs, [], maxSize);
    }
  }

  /** A group that fits is left whole; one that has to be cut is replaced by what its halves leave. */
  lemma CutsAsItHasTo(w: World, objs: seq<nat>, maxSize: real)
    requires Defined(w, objs, maxSize)
    ensures maxSize <= 0.0 || |objs| <= 1 || w.size(objs) <= maxSize + w.timeDiff(objs) ==>
      Created(w, objs, maxSize) == [objs]
    ensures HasToBeCut(w, [objs], 0, maxSize) ==>
      var max := maxSize + w.timeDiff(objs);
      && Spread(w, objs) && Defined(w, FirstHalf(w, objs), max) && Defined(w, SecondHalf(w, objs), max)
      && Created(w, objs, maxSize) == Created(w, FirstHalf(w, objs), max) + Created(w, SecondHalf(w, objs), max)
  {
    hide Defined, Spread, FirstHalf, SecondHalf, Created, NothingVanishes;
    assert [objs] == [objs] + [];
    HasToBeCutFirst(w, objs, [], maxSize);
    CreatedCases(w, objs, maxSize);
    if TooLarge(w, objs, maxSize) && CutsInTwo(w, objs) {
      CutCreates(w, objs, maxSize);
    }
  }

  /** The probability reported for a large group that is not cut is the reciprocal of its spread ratio, at most one. */
  lemma ReportedProbability(w: World, objs: seq<nat>, maxSize: real)
    requires Spread(w, objs) && DefinedHalves(w, objs, maxSize)
    ensures FallsApart(w, objs) ==> Split(w, objs, maxSize).0 == 1.0
    ensures !FallsApart(w, objs) ==>
      0.0 < Split(w, objs, maxSize).0 <= 1.0 && Times(Split(w, objs, maxSize).0, w.msf(objs)) == 1.0
  {
    hide Spread, FirstHalf, SecondHalf, Created;
    if !FallsApart(w, objs) {
      ReciprocalOf(w.msf(objs));
    }
  }

  lemma ReciprocalOf(m: real)
    requires m >= 1.0
    ensures 0.0 < 1.0 / m <= 1.0 && Times(1.0 / m, m) == 1.0
  {
  }

  /** A group that a frame leaves, of the objects that were grouped: no larger than allowed unless it need not be. */
  ghost predicate IsLeft(w: World, objs: seq<nat>, g: seq<nat>, maxSize: real) {
    exists path :: LeadsTo(w, path, objs, g, maxSize)
  }

  /** With all objects seen at one time the limit is the one asked for. */
  lemma {:induction false} AllowedAtOneTime(w: World, path: seq<seq<nat>>, maxSize: real)
    requires forall g :: w.timeDiff(g) == 0.0
    ensures Allowed(w, path, maxSize) == maxSize
  {
    if path != [] {
      AllowedAtOneTime(w, path[..|path| - 1], maxSize);
    }
  }

  /** So then every trackable stands for one object, is no larger than the limit, or does not fall apart. */
  lemma SizesAtOneTime(w: World, objs: seq<nat>, g: seq<nat>, maxSize: real)
    requires maxSize > 0.0 && IsLeft(w, objs, g, maxSize) && forall g :: w.timeDiff(g) == 0.0
    ensures |g| <= 1 || w.size(g) <= maxSize || !FallsApart(w, g)
  {
    hide FallsApart;
    var path :| LeadsTo(w, path, objs, g, maxSize);
    var n := |path| - 1;
    AllowedAtOneTime(w, path[..n], maxSize);
    AllowedAtOneTime(w, path[..n + 1], maxSize);
  }

  // ---- among several farthest pairs ----

  /** The loops come to pair (k, l) before pair (i, j). */
  predicate Precedes(k: nat, l: nat, i: nat, j: nat) {
    k > i || (k == i && l > j)
  }

  /** From pair (o1, o2) on the loops found pair r: longer than b, and than all they came to before it. */
  ghost predicate FoundFrom(w: World, objs: seq<nat>, o1: nat, o2: nat, b: Best, r: Best)
    requires o1 < |objs|
  {
    && r.second < r.first <= o1 && !Precedes(r.first, r.second, o1, o2)
    && r.dmax == Apart(w, objs[r.first], objs[r.second]) && r.dmax > b.dmax
    && forall k: nat, l: nat :: l < k <= o1 && !Precedes(k, l, o1, o2) && Precedes(k, l, r.first, r.second) ==>
         Apart(w, objs[k], objs[l]) < r.dmax
  }

  lemma {:induction false} ScanIsFirst(w: World, objs: seq<nat>, o1: nat, o2: nat, b: Best)
    requires o2 < o1 < |objs|
    ensures var r := Scan(w, objs, o1, o2, b); r == b || FoundFrom(w, objs, o1, o2, b, r)
    decreases o1, o2
  {
    hide Apart, FoundFrom;
    var c := Better(w, objs, b, o1, o2);
    if o2 > 0 {
      ScanIsFirst(w, objs, o1, o2 - 1, c);
      FoundEarlier(w, objs, o1, o2, o1, o2 - 1, b, Scan(w, objs, o1, o2, b));
    } else if o1 > 1 {
      ScanIsFirst(w, objs, o1 - 1, o1 - 2, c);
      FoundEarlier(w, objs, o1, o2, o1 - 1, o1 - 2, b, Scan(w, objs, o1, o2, b));
    } else {
      FoundEarlier(w, objs, o1, o2, 1, 0, b, c);
    }
  }

  /** What is found from the next pair on, or is the present one, is found from the present one on. */
  lemma FoundEarlier(w: World, objs: seq<nat>, o1: nat, o2: nat, n1: nat, n2: nat, b: Best, r: Best)
    requires o2 < o1 < |objs| && n2 < n1 <= o1
    requires (n1 == o1 && (n2 == o2 - 1 || n2 == o2 == 0)) || (o2 == 0 && n1 == o1 - 1 && n2 == o1 - 2)
    requires var c := Better(w, objs, b, o1, o2); r == c || FoundFrom(w, objs, n1, n2, c, r)
    ensures r == b || FoundFrom(w, objs, o1, o2, b, r)
  {
    hide Apart;
  }

  /** Of several farthest pairs the one is taken to which the loops come first. */
  lemma FirstFarthest(w: World, objs: seq<nat>, k: nat, l: nat)
    requires Spread(w, objs) && l < k < |objs|
    ensures var f := Farthest(w, objs);
      f.second < f.first < |objs| &&
      (Precedes(k, l, f.first, f.second) ==> Apart(w, objs[k], objs[l]) < Apart(w, objs[f.first], objs[f.second]))
  {
    hide Apart, Scan;
    ScanIsFirst(w, objs, |objs| - 1, |objs| - 2, NO_PAIR);
  }
}
