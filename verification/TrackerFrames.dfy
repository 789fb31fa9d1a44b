/** The frame that the matching of tracked objects with merged ones makes: what is merged is taken up once. */
module TrackerFrames {
  import opened Common
  import opened Tracker
  import opened TrackerRuns
  import M = Matching

  /** How likely the merged object with which a tracked one was matched is to be two. */
  function SeenAs(keys: seq<nat>, cm: seq<int>, probs: seq<real>, key: nat): Option<real>
    requires |cm| == |keys|
  {
    if keys == [] then None
    else if keys[0] == key then if 0 <= cm[0] < |probs| then Some(probs[cm[0]]) else None
    else SeenAs(keys[1..], cm[1..], probs, key)
  }

  /** The merged objects that were not matched, from the last to the first. */
  function Unmatched(mm: seq<int>, probs: seq<real>): seq<real>
    requires |mm| == |probs|
  {
    if mm == [] then []
    else
      var n := |mm| - 1;
      (if mm[n] < 0 then [probs[n]] else []) + Unmatched(mm[..n], probs[..n])
  }

  function MatchedFrame(now: nat, keys: seq<nat>, cm: seq<int>, mm: seq<int>, probs: seq<real>, geo: Geometry): Frame
    requires |cm| == |keys| && |mm| == |probs|
  {
    Frame(now, (key: nat) => SeenAs(keys, cm, probs, key), Unmatched(mm, probs), geo)
  }

  lemma {:induction false} SeenAsAt(keys: seq<nat>, cm: seq<int>, probs: seq<real>, i: nat)
    requires |cm| == |keys| && i < |keys| && forall a, b :: 0 <= a < b < |keys| ==> keys[a] != keys[b]
    ensures SeenAs(keys, cm, probs, keys[i]) == if 0 <= cm[i] < |probs| then Some(probs[cm[i]]) else None
  {
    if i > 0 {
      SeenAsAt(keys[1..], cm[1..], probs, i - 1);
    }
  }

  /** The indexes at which a map is assigned. */
  ghost function Assigned(indexes: seq<int>): set<int> {
    set i | 0 <= i < |indexes| && indexes[i] >= 0
  }

  lemma {:induction false} UnmatchedAreMany(mm: seq<int>, probs: seq<real>)
    requires |mm| == |probs|
    ensures |Unmatched(mm, probs)| + |Assigned(mm)| == |mm|
  {
    hide Assigned;
    if mm == [] {
      NothingAssigned();
    } else {
      var n := |mm| - 1;
      UnmatchedAreMany(mm[..n], probs[..n]);
      AssignedNext(mm);
    }
  }

  lemma NothingAssigned()
    ensures Assigned([]) == {}
  {
  }

  lemma AssignedNext(indexes: seq<int>)
    requires indexes != []
    ensures var n := |indexes| - 1; |Assigned(indexes)| == |Assigned(indexes[..n])| + if indexes[n] >= 0 then 1 else 0
  {
    var n := |indexes| - 1;
    var before := Assigned(indexes[..n]);
    if indexes[n] >= 0 {
      assert Assigned(indexes) == before + {n} && n !in before;
    } else {
      assert Assigned(indexes) == before;
    }
  }

  lemma {:induction false} OneToOne(cm: seq<int>, a: set<int>, b: set<int>)
    requires forall i :: i in a ==> 0 <= i < |cm| && cm[i] in b
    requires forall i, j :: i in a && j in a && cm[i] == cm[j] ==> i == j
    requires forall j :: j in b ==> exists i :: i in a && cm[i] == j
    ensures |a| == |b|
    decreases a
  {
    SomeElement(a);
    SomeElement(b);
    if i :| i in a {
      OneToOne(cm, a - {i}, b - {cm[i]});
    }
  }

  /** As many tracked objects are matched as merged ones. */
  lemma MatchedAlike(cm: seq<int>, mm: seq<int>)
    requires M.Inverse(cm, mm)
    ensures |Assigned(cm)| == |Assigned(mm)|
  {
    forall j | j in Assigned(mm) ensures exists i :: i in Assigned(cm) && cm[i] == j {
      assert mm[j] in Assigned(cm);
    }
    OneToOne(cm, Assigned(cm), Assigned(mm));
  }

  /** The tracked objects a frame brings up to date. */
  ghost function TouchedBy(current: seq<Trackable>, f: Frame): set<int> {
    set i | 0 <= i < |current| && Touched(current, f)[i].touched
  }

  /** Whatever was matched, as long as the two maps are inverse: a tracked object is up to date after a frame iff it was
      matched, then at the time of the frame and with the probability of its merged object, and every merged object
      either brings one tracked object up to date or is new. */
  lemma MergedAreTakenUpOnce(current: seq<Trackable>, now: nat, keys: seq<nat>, cm: seq<int>, mm: seq<int>,
                             probs: seq<real>, geo: Geometry)
    requires |keys| == |current| == |cm| && |probs| == |mm| && M.Inverse(cm, mm)
    requires forall i :: 0 <= i < |current| ==> keys[i] == current[i].key
    requires forall a, b :: 0 <= a < b < |keys| ==> keys[a] != keys[b]
    ensures var f := MatchedFrame(now, keys, cm, mm, probs, geo); var t := Touched(current, f);
      && (forall i :: 0 <= i < |t| ==> (t[i].touched <==> cm[i] >= 0))
      && (forall i :: 0 <= i < |t| && cm[i] >= 0 ==> t[i].lastTime == now && t[i].splitProb == probs[cm[i]])
      && |TouchedBy(current, f)| + |f.unseen| == |mm|
  {
    hide M.Inverse;
    var f := MatchedFrame(now, keys, cm, mm, probs, geo);
    MapsWithin(cm, mm);
    forall i | 0 <= i < |current|
      ensures f.seen(current[i].key) == if cm[i] >= 0 then Some(probs[cm[i]]) else None
    {
      SeenAsAt(keys, cm, probs, i);
    }
    assert TouchedBy(current, f) == Assigned(cm);
    MatchedAlike(cm, mm);
    UnmatchedAreMany(mm, probs);
  }

  lemma MapsWithin(cm: seq<int>, mm: seq<int>)
    requires M.Inverse(cm, mm)
    ensures forall i :: 0 <= i < |cm| ==> cm[i] < |mm|
  {
  }

  /** After the closest pairs were matched, no tracked object that was passed over is within the distance of a merged
      one that becomes a new object. */
  lemma NothingNewIsNearThePassedOver(current: seq<Trackable>, now: nat, keys: seq<nat>, cm: seq<int>, mm: seq<int>,
                                      probs: seq<real>, geo: Geometry, distance: (nat, nat) -> real, limit: real,
                                      i: nat, j: nat)
    requires |keys| == |current| == |cm| && |probs| == |mm| && M.GreedyMatching(cm, mm, distance, limit, true)
    requires forall i :: 0 <= i < |current| ==> keys[i] == current[i].key
    requires forall a, b :: 0 <= a < b < |keys| ==> keys[a] != keys[b]
    requires i < |current| && j < |mm| && mm[j] < 0
    ensures !Touched(current, MatchedFrame(now, keys, cm, mm, probs, geo))[i].touched ==> distance(i, j) >= limit
  {
    MergedAreTakenUpOnce(current, now, keys, cm, mm, probs, geo);
    if cm[i] < 0 && distance(i, j) < limit {
      M.GreedyIsMaximal(cm, mm, distance, limit, true, i, j);
    }
  }

  /** A merged object without a partner starts as a new one: not public, without an id, and seen since the frame. */
  lemma NewObjects(f: Frame, nextKey: nat, i: nat)
    requires i < |f.unseen|
    ensures var n := Newcomers(f, nextKey, |f.unseen|);
      && |n| == |f.unseen| && n[i].key == nextKey + i && n[i].id == 0 && n[i].latentIds == []
      && !n[i].isActivated && !n[i].erasable && n[i].touched
      && n[i].firstTime == n[i].lastTime == f.now && n[i].splitProb == f.unseen[i]
  {
    NewcomerAt(f, nextKey, |f.unseen|, i);
  }
}
