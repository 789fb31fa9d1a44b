/** Greedy matching of tracked objects with freshly merged ones: the closest pair first, each side at most
    once; and the pass in which an older object takes over the match of a younger one.  */
module Matching {
  import opened Candidates

  /** The two maps are inverse to each other where they are defined; negative means unassigned. */
  ghost predicate Inverse(cm: seq<int>, mm: seq<int>) {
    && (forall i :: 0 <= i < |cm| && cm[i] >= 0 ==> cm[i] < |mm| && mm[cm[i]] == i)
    && (forall j :: 0 <= j < |mm| && mm[j] >= 0 ==> mm[j] < |cm| && cm[mm[j]] == j)
  }

  /** The pair (i, j) would rather be matched than stay as it is. */
  ghost predicate Blocks(cm: seq<int>, mm: seq<int>, distance: (nat, nat) -> real, i: nat, j: nat)
    requires Inverse(cm, mm) && i < |cm| && j < |mm|
  {
    && (cm[i] < 0 || distance(i, j) < distance(i, cm[i]))
    && (mm[j] < 0 || distance(i, j) < distance(mm[j], j))
  }

  /** A one-to-one partial matching of pairs below the limit that no pair below the limit blocks. */
  ghost predicate GreedyMatching(cm: seq<int>, mm: seq<int>, distance: (nat, nat) -> real, limit: real, strict: bool) {
    && Inverse(cm, mm)
    && (forall i :: 0 <= i < |cm| && cm[i] >= 0 ==> Admissible(distance(i, cm[i]), limit, strict))
    && (forall i: nat, j: nat :: i < |cm| && j < |mm| && Admissible(distance(i, j), limit, strict) ==>
          !Blocks(cm, mm, distance, i, j))
  }

  predicate Admissible(d: real, limit: real, strict: bool) {
    if strict then d < limit else d <= limit
  }

  /** After the first k candidates: matched pairs are among them and none of them blocks. */
  ghost predicate Progress(cm: seq<int>, mm: seq<int>, infos: seq<TrackInfo>, k: nat, distance: (nat, nat) -> real)
    requires k <= |infos|
  {
    && Inverse(cm, mm) && WithinSizes(infos, |cm|, |mm|)
    && (forall i: nat :: i < |cm| && cm[i] >= 0 ==> Among(infos, k, i, cm[i]))
    && (forall l :: 0 <= l < k ==> !Blocks(cm, mm, distance, infos[l].currentIndex, infos[l].mergedIndex))
  }

  ghost predicate Among(infos: seq<TrackInfo>, k: nat, i: nat, j: nat)
    requires k <= |infos|
  {
    exists l :: 0 <= l < k && infos[l].currentIndex == i && infos[l].mergedIndex == j
  }

  lemma ProgressStep(cm: seq<int>, mm: seq<int>, infos: seq<TrackInfo>, k: nat, distance: (nat, nat) -> real)
    requires k < |infos| && ByDistance(infos) && Progress(cm, mm, infos, k, distance)
    requires forall l :: 0 <= l < |infos| ==> infos[l].distance == distance(infos[l].currentIndex, infos[l].mergedIndex)
    ensures var t := infos[k];
      if cm[t.currentIndex] < 0 && mm[t.mergedIndex] < 0
      then Progress(cm[t.currentIndex := t.mergedIndex], mm[t.mergedIndex := t.currentIndex], infos, k + 1, distance)
      else Progress(cm, mm, infos, k + 1, distance)
  {
    var t := infos[k];
    if cm[t.currentIndex] < 0 && mm[t.mergedIndex] < 0 {
      var cm', mm' := cm[t.currentIndex := t.mergedIndex], mm[t.mergedIndex := t.currentIndex];
      forall i: nat | i < |cm'| && cm'[i] >= 0 ensures Among(infos, k + 1, i, cm'[i]) {
        if i != t.currentIndex {
          assert Among(infos, k, i, cm[i]);
        }
      }
      forall l | 0 <= l < k + 1 ensures !Blocks(cm', mm', distance, infos[l].currentIndex, infos[l].mergedIndex) {
        if l < k {
          assert !Blocks(cm, mm, distance, infos[l].currentIndex, infos[l].mergedIndex);
        }
      }
    } else {
      forall i: nat | i < |cm| && cm[i] >= 0 ensures Among(infos, k + 1, i, cm[i]) {
        assert Among(infos, k, i, cm[i]);
      }
      AssignedDoesNotBlock(cm, mm, infos, k, distance);
    }
  }

  /** A candidate with a matched member met that match earlier, so at no greater distance. */
  lemma AssignedDoesNotBlock(cm: seq<int>, mm: seq<int>, infos: seq<TrackInfo>, k: nat, distance: (nat, nat) -> real)
    requires k < |infos| && ByDistance(infos) && Progress(cm, mm, infos, k, distance)
    requires forall l :: 0 <= l < |infos| ==> infos[l].distance == distance(infos[l].currentIndex, infos[l].mergedIndex)
    requires cm[infos[k].currentIndex] >= 0 || mm[infos[k].mergedIndex] >= 0
    ensures !Blocks(cm, mm, distance, infos[k].currentIndex, infos[k].mergedIndex)
  {
    var t := infos[k];
    var i: nat := if cm[t.currentIndex] >= 0 then t.currentIndex else mm[t.mergedIndex];
    assert Among(infos, k, i, cm[i]);
    var l :| 0 <= l < k && infos[l].currentIndex == i && infos[l].mergedIndex == cm[i];
    Ordered(infos, l, k);
  }

  lemma ProgressEnds(cm: seq<int>, mm: seq<int>, infos: seq<TrackInfo>, k: nat, n: nat, m: nat,
                     distance: (nat, nat) -> real, limit: real, strict: bool)
    requires k <= |infos| && |cm| == n && |mm| == m && Progress(cm, mm, infos, k, distance)
    requires AreCrossPairs(infos, n, m, distance, limit)
    requires forall l :: 0 <= l < |infos| ==> (l < k <==> Admissible(infos[l].distance, limit, strict))
    ensures GreedyMatching(cm, mm, distance, limit, strict)
  {
    forall i: nat, j: nat | i < n && j < m && Admissible(distance(i, j), limit, strict)
      ensures !Blocks(cm, mm, distance, i, j)
    {
      assert Has(infos, distance(i, j), i, j);
    }
    forall i: nat | i < n && cm[i] >= 0 ensures Admissible(distance(i, cm[i]), limit, strict) {
      assert Among(infos, k, i, cm[i]);
    }
  }

  /** The matching is maximal: a pair below the limit has a matched member. */
  lemma GreedyIsMaximal(cm: seq<int>, mm: seq<int>, distance: (nat, nat) -> real, limit: real, strict: bool, i: nat,
                        j: nat)
    requires GreedyMatching(cm, mm, distance, limit, strict)
    requires i < |cm| && j < |mm| && Admissible(distance(i, j), limit, strict)
    ensures cm[i] >= 0 || mm[j] >= 0
  {
    assert !Blocks(cm, mm, distance, i, j);
  }

  ghost predicate Agree(a: seq<int>, b: seq<int>) {
    |a| == |b| && forall i :: 0 <= i < |a| ==> (a[i] < 0 && b[i] < 0) || a[i] == b[i]
  }

  ghost predicate InjectiveDistances(distance: (nat, nat) -> real, n: nat, m: nat) {
    forall i: nat, j: nat, k: nat, l: nat :: i < n && k < n && j < m && l < m && distance(i, j) == distance(k, l) ==>
      i == k && j == l
  }

  /** When no two distances are equal there is only one such matching: what is matched in one is matched in
      the other. */
  lemma {:induction false} GreedyIsUnique(cm: seq<int>, mm: seq<int>, cn: seq<int>, mn: seq<int>,
                                          distance: (nat, nat) -> real, limit: real, strict: bool, i: nat,
                                          pool: set<nat>)
    requires GreedyMatching(cm, mm, distance, limit, strict) && GreedyMatching(cn, mn, distance, limit, strict)
    requires |cm| == |cn| && |mm| == |mn| && InjectiveDistances(distance, |cm|, |mm|)
    requires i < |cm| && cm[i] >= 0 && i in pool
    requires forall k: nat :: k < |cm| && cm[k] >= 0 && distance(k, cm[k]) <= distance(i, cm[i]) ==> k in pool
    ensures cn[i] == cm[i]
    decreases pool
  {
    var j: nat := cm[i];
    assert !Blocks(cn, mn, distance, i, j);
    if cn[i] >= 0 && cn[i] != j && distance(i, cn[i]) <= distance(i, j) {
      // i has a closer partner in the other matching, whose own partner here is closer still
      var b: nat := cn[i];
      assert !Blocks(cm, mm, distance, i, b);
      var k: nat := mm[b];
      GreedyIsUnique(cm, mm, cn, mn, distance, limit, strict, k, pool - {i});
    } else if cn[i] != j {
      var k: nat := mn[j];
      assert !Blocks(cm, mm, distance, k, j);
      assert distance(k, j) < distance(i, j);
      assert cm[k] >= 0 && distance(k, cm[k]) < distance(i, j);
      GreedyIsUnique(cm, mm, cn, mn, distance, limit, strict, k, pool - {i});
    }
  }

  lemma GreedyDeterminesTheMatching(cm: seq<int>, mm: seq<int>, cn: seq<int>, mn: seq<int>,
                                    distance: (nat, nat) -> real, limit: real, strict: bool)
    requires GreedyMatching(cm, mm, distance, limit, strict) && GreedyMatching(cn, mn, distance, limit, strict)
    requires |cm| == |cn| && |mm| == |mn| && InjectiveDistances(distance, |cm|, |mm|)
    ensures Agree(cm, cn)
  {
    var all := set k: nat {:trigger Slot(cm, k)} | k < |cm| && Slot(cm, k);
    forall i: nat | i < |cm| ensures (cm[i] < 0 && cn[i] < 0) || cm[i] == cn[i] {
      assert forall k: nat :: k < |cm| ==> Slot(cm, k);
      if cm[i] >= 0 {
        GreedyIsUnique(cm, mm, cn, mn, distance, limit, strict, i, all);
      } else if cn[i] >= 0 {
        GreedyIsUnique(cn, mn, cm, mm, distance, limit, strict, i, all);
      }
    }
  }

  ghost predicate Slot(cm: seq<int>, k: nat) {
    k < |cm|
  }

  /** The matching of one frame: candidates strictly below the tracking distance, closest first. */
  method AssignClosest(infos: seq<TrackInfo>, n: nat, m: nat, trackDistance: real, ghost distance: (nat, nat) -> real)
    returns (currentMap: array<int>, mergedMap: array<int>)
    requires ByDistance(infos) && AreCrossPairs(infos, n, m, distance, trackDistance)
    ensures fresh(currentMap) && fresh(mergedMap) && currentMap != mergedMap && currentMap.Length == n &&
      mergedMap.Length == m
    ensures GreedyMatching(currentMap[..], mergedMap[..], distance, trackDistance, true)
  {
    hide Inverse, GreedyMatching, ByDistance;
    currentMap := new int[n](_ => -1);
    mergedMap := new int[m](_ => -1);
    var i := 0;
    NothingMatched(currentMap[..], mergedMap[..], infos, distance);
    while i < |infos| && infos[i].distance < trackDistance
      invariant 0 <= i <= |infos| && Progress(currentMap[..], mergedMap[..], infos, i, distance)
      invariant forall l :: 0 <= l < i ==> infos[l].distance < trackDistance
    {
      var ti := infos[i];
      ProgressStep(currentMap[..], mergedMap[..], infos, i, distance);
      if currentMap[ti.currentIndex] < 0 && mergedMap[ti.mergedIndex] < 0 {
        ghost var cm, mm := currentMap[..], mergedMap[..];
        currentMap[ti.currentIndex] := ti.mergedIndex;
        mergedMap[ti.mergedIndex] := ti.currentIndex;
        assert currentMap[..] == cm[ti.currentIndex := ti.mergedIndex];
        assert mergedMap[..] == mm[ti.mergedIndex := ti.currentIndex];
      }
      i := i + 1;
    }
    forall l | i <= l < |infos| ensures infos[l].distance >= trackDistance {
      Ordered(infos, i, l);
    }
    ProgressEnds(currentMap[..], mergedMap[..], infos, i, n, m, distance, trackDistance, true);
  }

  lemma NothingMatched(cm: seq<int>, mm: seq<int>, infos: seq<TrackInfo>, distance: (nat, nat) -> real)
    requires forall i :: 0 <= i < |cm| ==> cm[i] == -1
    requires forall j :: 0 <= j < |mm| ==> mm[j] == -1
    requires WithinSizes(infos, |cm|, |mm|)
    ensures Progress(cm, mm, infos, 0, distance)
  {
  }

  // ---- the pass in which an older object takes over ----

  datatype Tracked = Tracked(isActivated: bool, firstTime: nat)

  /** A candidate whose tracked object is unassigned, activated and older than the not yet activated object
      that holds the merged one. */
  predicate Claims(cm: seq<int>, mm: seq<int>, current: seq<Tracked>, t: TrackInfo)
    requires t.currentIndex < |cm| == |current| && t.mergedIndex < |mm|
    requires forall j :: 0 <= j < |mm| ==> mm[j] < |current|
  {
    cm[t.currentIndex] < 0 && mm[t.mergedIndex] >= 0 &&
    var owner := current[mm[t.mergedIndex]];
    !owner.isActivated && current[t.currentIndex].isActivated && current[t.currentIndex].firstTime < owner.firstTime
  }

  /** The two maps after a claim as the program writes it, or nothing when it leaves the arrays: the entry of
      `mergedMap` it overwrites is found through `currentMap` at the merged index. Both arrays have one
      spare, unassigned slot at the end. */
  datatype Maps = Outside | Maps(cm: seq<int>, mm: seq<int>)

  function Claimed(cm: seq<int>, mm: seq<int>, t: TrackInfo): Maps
    requires t.currentIndex < |cm| && t.mergedIndex < |mm| && 0 <= mm[t.mergedIndex] < |cm|
  {
    var owner := mm[t.mergedIndex];
    if t.mergedIndex >= |cm| then Outside
    else
      var overwritten := cm[t.mergedIndex];
      if overwritten < 0 || overwritten >= |mm| then Outside
      else Maps(cm[t.currentIndex := t.mergedIndex][owner := -1], mm[overwritten := t.currentIndex])
  }

  /** The pass keeps the maps inverse exactly when the previous owner happens to have the index of the merged
      object it owns; otherwise it leaves the arrays or leaves the maps inconsistent. */
  lemma ClaimKeepsInverse(cm: seq<int>, mm: seq<int>, current: seq<Tracked>, t: TrackInfo)
    requires Inverse(cm, mm) && t.currentIndex < |cm| == |current| && t.mergedIndex < |mm|
    requires Claims(cm, mm, current, t)
    ensures var r := Claimed(cm, mm, t);
      r.Maps? && Inverse(r.cm, r.mm) <==> mm[t.mergedIndex] == t.mergedIndex
  {
    var r := Claimed(cm, mm, t);
    if r.Maps? && mm[t.mergedIndex] != t.mergedIndex {
      assert r.cm[t.currentIndex] == t.mergedIndex;
      assert r.mm[t.mergedIndex] == mm[t.mergedIndex];
    }
  }

  // ---- the whole pass ----

  ghost predicate Fitting(cm: seq<int>, mm: seq<int>, current: seq<Tracked>) {
    |cm| == |current| && forall j :: 0 <= j < |mm| ==> mm[j] < |current|
  }

  predicate Names(t: TrackInfo, n: nat, m: nat) {
    t.currentIndex < n && t.mergedIndex < m
  }

  /** One candidate of the pass; what was written outside the arrays is not followed further. */
  ghost function Passed(maps: Maps, current: seq<Tracked>, t: TrackInfo): (r: Maps)
    requires maps.Maps? ==> Fitting(maps.cm, maps.mm, current) && Names(t, |maps.cm|, |maps.mm|)
    ensures r.Maps? ==> maps.Maps? && Fitting(r.cm, r.mm, current) && |r.cm| == |maps.cm| && |r.mm| == |maps.mm|
  {
    if maps.Maps? then
      if Claims(maps.cm, maps.mm, current, t) then Claimed(maps.cm, maps.mm, t) else maps
    else Outside
  }

  ghost function PassedAll(cm: seq<int>, mm: seq<int>, current: seq<Tracked>, infos: seq<TrackInfo>, k: nat): (r: Maps)
    requires Fitting(cm, mm, current) && WithinSizes(infos, |cm|, |mm|) && k <= |infos|
    ensures r.Maps? ==> Fitting(r.cm, r.mm, current) && |r.cm| == |cm| && |r.mm| == |mm|
  {
    if k == 0 then Maps(cm, mm) else Passed(PassedAll(cm, mm, current, infos, k - 1), current, infos[k - 1])
  }

  /** Candidate k claims its merged object, and that is not held by the tracked object of the same index. */
  ghost predicate MissesAt(cm: seq<int>, mm: seq<int>, current: seq<Tracked>, infos: seq<TrackInfo>, k: nat)
    requires Fitting(cm, mm, current) && WithinSizes(infos, |cm|, |mm|) && k < |infos|
  {
    var maps, j := PassedAll(cm, mm, current, infos, k), infos[k].mergedIndex;
    maps.Maps? && Claims(maps.cm, maps.mm, current, infos[k]) && maps.mm[j] != j
  }

  ghost predicate Missed(cm: seq<int>, mm: seq<int>, current: seq<Tracked>, infos: seq<TrackInfo>, k: nat)
    requires Fitting(cm, mm, current) && WithinSizes(infos, |cm|, |mm|) && k <= |infos|
  {
    exists j: nat :: j < k && MissesAt(cm, mm, current, infos, j)
  }

  /** An old object believes to hold a merged one that is not its own. */
  ghost predicate Astray(cm: seq<int>, mm: seq<int>, current: seq<Tracked>, x: nat) {
    x < |cm| == |current| && current[x].isActivated && cm[x] >= 0 && !(cm[x] < |mm| && mm[cm[x]] == x)
  }

  /** What went astray stays so: an object that holds one claims no other, and nobody takes over from an old one. */
  lemma StaysAstray(cm: seq<int>, mm: seq<int>, current: seq<Tracked>, t: TrackInfo, x: nat)
    requires Fitting(cm, mm, current) && t.currentIndex < |cm| && t.mergedIndex < |mm|
    requires Claims(cm, mm, current, t) && Claimed(cm, mm, t).Maps? && Astray(cm, mm, current, x)
    ensures Astray(Claimed(cm, mm, t).cm, Claimed(cm, mm, t).mm, current, x)
  {
  }

  lemma MissGoesAstray(cm: seq<int>, mm: seq<int>, current: seq<Tracked>, t: TrackInfo)
    requires Inverse(cm, mm) && Fitting(cm, mm, current) && t.currentIndex < |cm| && t.mergedIndex < |mm|
    requires Claims(cm, mm, current, t) && mm[t.mergedIndex] != t.mergedIndex && Claimed(cm, mm, t).Maps?
    ensures Astray(Claimed(cm, mm, t).cm, Claimed(cm, mm, t).mm, current, t.currentIndex)
  {
  }

  /** The maps are inverse, or some object is astray. */
  ghost predicate Kept(maps: Maps, current: seq<Tracked>, missed: bool) {
    if missed then maps.Outside? || exists x: nat :: Astray(maps.cm, maps.mm, current, x)
    else maps.Maps? && Inverse(maps.cm, maps.mm)
  }

  lemma {:induction false} PassIsKept(cm: seq<int>, mm: seq<int>, current: seq<Tracked>, infos: seq<TrackInfo>, k: nat)
    requires Fitting(cm, mm, current) && WithinSizes(infos, |cm|, |mm|) && k <= |infos| && Inverse(cm, mm)
    ensures Kept(PassedAll(cm, mm, current, infos, k), current, Missed(cm, mm, current, infos, k))
  {
    hide Inverse, Claims, Claimed, Astray, Missed;
    if k == 0 {
      NothingMissedYet(cm, mm, current, infos);
    } else {
      PassIsKept(cm, mm, current, infos, k - 1);
      MissedNext(cm, mm, current, infos, k - 1);
      var before, t := PassedAll(cm, mm, current, infos, k - 1), infos[k - 1];
      if before.Maps? && Claims(before.cm, before.mm, current, t) {
        ClaimIsKept(before, current, t, Missed(cm, mm, current, infos, k - 1));
      }
    }
  }

  lemma NothingMissedYet(cm: seq<int>, mm: seq<int>, current: seq<Tracked>, infos: seq<TrackInfo>)
    requires Fitting(cm, mm, current) && WithinSizes(infos, |cm|, |mm|)
    ensures !Missed(cm, mm, current, infos, 0)
  {
  }

  lemma MissedNext(cm: seq<int>, mm: seq<int>, current: seq<Tracked>, infos: seq<TrackInfo>, k: nat)
    requires Fitting(cm, mm, current) && WithinSizes(infos, |cm|, |mm|) && k < |infos|
    ensures Missed(cm, mm, current, infos, k + 1) <==>
      Missed(cm, mm, current, infos, k) || MissesAt(cm, mm, current, infos, k)
  {
    hide MissesAt;
  }

  lemma ClaimIsKept(maps: Maps, current: seq<Tracked>, t: TrackInfo, missed: bool)
    requires maps.Maps? && Fitting(maps.cm, maps.mm, current) && Names(t, |maps.cm|, |maps.mm|)
    requires Kept(maps, current, missed) && Claims(maps.cm, maps.mm, current, t)
    ensures Kept(Passed(maps, current, t), current, missed || maps.mm[t.mergedIndex] != t.mergedIndex)
  {
    hide Inverse, Claimed, Astray;
    var r := Passed(maps, current, t);
    if missed {
      var x: nat :| Astray(maps.cm, maps.mm, current, x);
      if r.Maps? {
        StaysAstray(maps.cm, maps.mm, current, t, x);
      }
    } else {
      ClaimKeepsInverse(maps.cm, maps.mm, current, t);
      if r.Maps? && maps.mm[t.mergedIndex] != t.mergedIndex {
        MissGoesAstray(maps.cm, maps.mm, current, t);
      }
    }
  }

  /** After the whole pass the maps are inverse, and nothing was written outside, iff every object that was claimed was
      held by the tracked object of the same index: no later claim repairs what one has broken. */
  lemma PassKeepsInverse(cm: seq<int>, mm: seq<int>, current: seq<Tracked>, infos: seq<TrackInfo>, k: nat)
    requires Fitting(cm, mm, current) && WithinSizes(infos, |cm|, |mm|) && k <= |infos| && Inverse(cm, mm)
    ensures var r := PassedAll(cm, mm, current, infos, k);
      r.Maps? && Inverse(r.cm, r.mm) <==> forall j: nat :: j < k ==> !MissesAt(cm, mm, current, infos, j)
  {
    hide PassedAll, MissesAt, Inverse, Astray;
    PassIsKept(cm, mm, current, infos, k);
    var r := PassedAll(cm, mm, current, infos, k);
    if x: nat :| r.Maps? && Missed(cm, mm, current, infos, k) && Astray(r.cm, r.mm, current, x) {
      AstrayIsNotInverse(r.cm, r.mm, current, x);
    }
  }

  lemma AstrayIsNotInverse(cm: seq<int>, mm: seq<int>, current: seq<Tracked>, x: nat)
    requires Astray(cm, mm, current, x)
    ensures !Inverse(cm, mm)
  {
  }

  /** How many candidates, in order of distance, are below the limit. */
  function Below(infos: seq<TrackInfo>, limit: real, from: nat): (k: nat)
    requires from <= |infos|
    ensures from <= k <= |infos| && (k < |infos| ==> infos[k].distance >= limit)
    ensures forall l :: from <= l < k ==> infos[l].distance < limit
    decreases |infos| - from
  {
    if from == |infos| || infos[from].distance >= limit then from else Below(infos, limit, from + 1)
  }

  /** The pass as a loop over the arrays; it gives up where the program would write outside them. */
  method TakeOver(currentMap: array<int>, mergedMap: array<int>, current: seq<Tracked>, infos: seq<TrackInfo>,
                  trackDistance: real)
    returns (inside: bool)
    requires currentMap != mergedMap && Fitting(currentMap[..], mergedMap[..], current)
    requires WithinSizes(infos, currentMap.Length, mergedMap.Length)
    modifies currentMap, mergedMap
    ensures var r := PassedAll(old(currentMap[..]), old(mergedMap[..]), current, infos, Below(infos, trackDistance, 0));
      if inside then r == Maps(currentMap[..], mergedMap[..]) else r == Outside
  {
    ghost var cm, mm, all := currentMap[..], mergedMap[..], Below(infos, trackDistance, 0);
    var i := 0;
    while i < |infos| && infos[i].distance < trackDistance
      invariant 0 <= i <= all && WithinSizes(infos, |cm|, |mm|)
      invariant PassedAll(cm, mm, current, infos, i) == Maps(currentMap[..], mergedMap[..])
    {
      var ti := infos[i];
      ghost var before := Maps(currentMap[..], mergedMap[..]);
      NextIsPassed(cm, mm, current, infos, i);
      if currentMap[ti.currentIndex] < 0 && mergedMap[ti.mergedIndex] >= 0 {
        var owner := mergedMap[ti.mergedIndex];
        if !current[owner].isActivated {
          if current[ti.currentIndex].isActivated && current[ti.currentIndex].firstTime < current[owner].firstTime {
            if ti.mergedIndex >= currentMap.Length {
              OutsideStays(cm, mm, current, infos, i + 1, all);
              return false;
            }
            var overwritten := currentMap[ti.mergedIndex];
            if overwritten < 0 || overwritten >= mergedMap.Length {
              OutsideStays(cm, mm, current, infos, i + 1, all);
              return false;
            }
            currentMap[ti.currentIndex] := ti.mergedIndex;
            currentMap[owner] := -1;
            mergedMap[overwritten] := ti.currentIndex;
            assert currentMap[..] == before.cm[ti.currentIndex := ti.mergedIndex][owner := -1];
            assert mergedMap[..] == before.mm[overwritten := ti.currentIndex];
          }
        }
      }
      i := i + 1;
    }
    return true;
  }

  lemma NextIsPassed(cm: seq<int>, mm: seq<int>, current: seq<Tracked>, infos: seq<TrackInfo>, k: nat)
    requires Fitting(cm, mm, current) && WithinSizes(infos, |cm|, |mm|) && k < |infos|
    ensures var before, t := PassedAll(cm, mm, current, infos, k), infos[k];
      before.Maps? ==>
        PassedAll(cm, mm, current, infos, k + 1) ==
        if Claims(before.cm, before.mm, current, t) then Claimed(before.cm, before.mm, t) else before
  {
    hide Claims, Claimed;
  }

  lemma {:induction false} OutsideStays(cm: seq<int>, mm: seq<int>, current: seq<Tracked>, infos: seq<TrackInfo>,
                                        k: nat, l: nat)
    requires Fitting(cm, mm, current) && WithinSizes(infos, |cm|, |mm|) && k <= l <= |infos|
    requires PassedAll(cm, mm, current, infos, k).Outside?
    ensures PassedAll(cm, mm, current, infos, l).Outside?
  {
    if k < l {
      OutsideStays(cm, mm, current, infos, k, l - 1);
    }
  }

  /** Tracked objects 0 (young, matched to 0) and 1 (old): the old one claims merged object 0 and the maps stay
      inverse. With the young one at index 1 instead, they do not. */
  lemma ClaimExamples()
    ensures var r := Claimed([0, -1], [0], TrackInfo(1.0, 1, 0)); r == Maps([-1, 0], [1]) && Inverse(r.cm, r.mm)
    ensures Inverse([-1, 0], [1]) && Claimed([-1, 0], [1], TrackInfo(1.0, 0, 0)) == Outside
  {
  }

  // ---- what the limits and ages mean ----

  /** Matched pairs are within the limit, and no two left over are. */
  lemma MatchedWithinLimit(cm: seq<int>, mm: seq<int>, distance: (nat, nat) -> real, limit: real, strict: bool)
    requires GreedyMatching(cm, mm, distance, limit, strict)
    ensures forall i :: 0 <= i < |cm| && cm[i] >= 0 ==>
      distance(i, cm[i]) <= limit && (strict ==> distance(i, cm[i]) < limit)
    ensures forall i: nat, j: nat :: i < |cm| && j < |mm| && cm[i] < 0 && mm[j] < 0 ==>
      distance(i, j) >= limit && (!strict ==> distance(i, j) > limit)
  {
    forall i: nat, j: nat | i < |cm| && j < |mm| && cm[i] < 0 && mm[j] < 0
      ensures distance(i, j) >= limit && (!strict ==> distance(i, j) > limit)
    {
      if Admissible(distance(i, j), limit, strict) {
        GreedyIsMaximal(cm, mm, distance, limit, strict, i, j);
      }
    }
  }

  /** A merged object passes from a tracked one that is not public yet to a public one that had none and is known
      longer, and in no other case. */
  lemma PassesToTheOlder(cm: seq<int>, mm: seq<int>, current: seq<Tracked>, t: TrackInfo)
    requires Fitting(cm, mm, current) && Names(t, |cm|, |mm|)
    ensures var taker, j := current[t.currentIndex], t.mergedIndex;
      Passed(Maps(cm, mm), current, t) != Maps(cm, mm) ==>
        && cm[t.currentIndex] < 0 && mm[j] >= 0
        && taker.isActivated && !current[mm[j]].isActivated && taker.firstTime < current[mm[j]].firstTime
    ensures var taker, j := current[t.currentIndex], t.mergedIndex;
      cm[t.currentIndex] < 0 && mm[j] >= 0 && taker.isActivated && !current[mm[j]].isActivated &&
      taker.firstTime < current[mm[j]].firstTime ==>
        Passed(Maps(cm, mm), current, t) != Maps(cm, mm)
  {
  }
}
