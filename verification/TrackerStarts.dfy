/** Starting a stage in which frames were tracked before: the id counter starts again, and ids that are in use are given
    out a second time.  */
module TrackerStarts {
  import opened Common
  import opened Tracker
  import opened TrackerIds
  import opened TrackerLife
  import opened TrackerRuns

  // ---- frames in which nothing is lent or reclaimed ----

  /** Lending is switched off, or every object is in a portal. */
  ghost predicate NoLending(s: Settings, geo: Geometry) {
    s.latentDistance <= 0.0 || forall key: nat :: geo.portal(key)
  }

  lemma {:induction false} NothingIsLent(w: World, i: nat, s: Settings, f: Frame)
    requires i <= |w.current| && NoLending(s, f.geo)
    ensures var r := Dropped(w, i, s, f);
      && r.ids == w.ids
      && forall k :: 0 <= k < |w.current| ==>
           r.current[k] == w.current[k].(erasable := w.current[k].erasable || (k < i && Overdue(w.current[k], s, f)))
    decreases i
  {
    hide PutLatentId;
    if i > 0 {
      if Overdue(w.current[i - 1], s, f) {
        LendingIsOff(w, i - 1, s, f);
        NothingIsLent(w.(current := w.current[i - 1 := w.current[i - 1].(erasable := true)]), i - 1, s, f);
      } else {
        NothingIsLent(w, i - 1, s, f);
      }
    }
  }

  lemma LendingIsOff(w: World, i: nat, s: Settings, f: Frame)
    requires i < |w.current|
    ensures s.latentDistance <= 0.0 ==> PutLatentId(w, i, s, f) == w
  {
    hide FindHost;
  }

  // ---- the activation loop over different kinds of objects ----

  predicate Idle(t: Trackable, s: Settings, f: Frame) {
    t.isActivated || !Ripe(t, s, f)
  }

  predicate Waits(t: Trackable, s: Settings, f: Frame) {
    !t.isActivated && !Tracker.Stale(t, s, f) && !Ripe(t, s, f)
  }

  predicate Comes(t: Trackable, s: Settings, f: Frame) {
    !t.isActivated && !Tracker.Stale(t, s, f) && Ripe(t, s, f)
  }

  ghost predicate AllIdle(c: seq<Trackable>, s: Settings, f: Frame) {
    forall k :: 0 <= k < |c| ==> Idle(c[k], s, f)
  }

  ghost predicate AllWait(c: seq<Trackable>, s: Settings, f: Frame) {
    forall k :: 0 <= k < |c| ==> Waits(c[k], s, f)
  }

  ghost predicate AllCome(c: seq<Trackable>, s: Settings, f: Frame) {
    forall k :: 0 <= k < |c| ==> Comes(c[k], s, f)
  }

  /** The loop passes over idle objects: stale ones are dropped, active ones stay, and no id is given out. */
  lemma {:induction false} SweepIdle(done: seq<Trackable>, before: seq<Trackable>, rest: seq<Trackable>, ids: Ids,
                                     latest: seq<nat>,
                                     s: Settings, f: Frame)
    returns (kept: seq<Trackable>, published: seq<nat>)
    requires AllIdle(before, s, f)
    ensures Sweep(World(done + before + rest, ids), |done|, latest, s, f) ==
      Sweep(World(done + kept + rest, ids), |done| + |kept|, published, s, f)
    ensures forall t :: t in before && t.isActivated ==> t in kept
    ensures forall t :: t in kept ==> t in before
    decreases |before|
  {
    hide Sweep, Activated, Ripe, Tracker.Stale;
    var w := World(done + before + rest, ids);
    if before == [] {
      kept, published := [], latest;
    } else {
      var t, tail := before[0], before[1..];
      assert before == [t] + tail;
      assert w.current[|done|] == t;
      SweepUnfolds(w, |done|, latest, s, f);
      if !t.isActivated && Tracker.Stale(t, s, f) {
        assert w.current[..|done|] + w.current[|done| + 1..] == done + tail + rest;
        kept, published := SweepIdle(done, tail, rest, ids, latest, s, f);
      } else {
        assert (done + [t]) + tail + rest == w.current;
        var k, p := SweepIdle(done + [t], tail, rest, ids, Published(latest, t, f), s, f);
        kept, published := [t] + k, p;
        assert done + [t] + k + rest == done + kept + rest;
      }
    }
  }

  /** The loop leaves objects on probation that are fresh and too young. */
  lemma {:induction false} SweepWaiting(done: seq<Trackable>, rest: seq<Trackable>, ids: Ids, latest: seq<nat>,
                                        s: Settings, f: Frame)
    requires AllWait(rest, s, f)
    ensures Sweep(World(done + rest, ids), |done|, latest, s, f).world == World(done + rest, ids)
    decreases |rest|
  {
    hide Sweep, Activated, Ripe, Tracker.Stale;
    var w := World(done + rest, ids);
    if rest == [] {
      SweepEnds(w, latest, s, f);
    } else {
      assert w.current[|done|] == rest[0];
      SweepUnfolds(w, |done|, latest, s, f);
      assert (done + [rest[0]]) + rest[1..] == w.current;
      SweepWaiting(done + [rest[0]], rest[1..], ids, Published(latest, rest[0], f), s, f);
    }
  }

  /** Objects that come of age get the next ids in turn. */
  ghost function Named(rest: seq<Trackable>, first: nat): (r: seq<Trackable>)
    ensures |r| == |rest|
  {
    seq(|rest|, k requires 0 <= k < |rest| => rest[k].(id := first + k, isActivated := true))
  }

  lemma {:induction false} SweepComing(done: seq<Trackable>, rest: seq<Trackable>, issued: nat, latest: seq<nat>,
                                       s: Settings, f: Frame)
    requires AllCome(rest, s, f) && NoLending(s, f.geo) && issued + |rest| < U32
    ensures Sweep(World(done + rest, Ids(issued, issued)), |done|, latest, s, f).world ==
      World(done + Named(rest, issued + 1), Ids(issued + |rest|, issued + |rest|))
    decreases |rest|
  {
    hide Sweep, GetLatentId, Ripe, Tracker.Stale;
    var w := World(done + rest, Ids(issued, issued));
    if rest == [] {
      SweepEnds(w, latest, s, f);
      assert Named(rest, issued + 1) == [];
    } else {
      var t := rest[0].(id := issued + 1, isActivated := true);
      assert w.current[|done|] == rest[0];
      SweepUnfolds(w, |done|, latest, s, f);
      assert w.current[|done| := t] == (done + [t]) + rest[1..];
      assert Activated(w, |done|, s, f) == World((done + [t]) + rest[1..], Ids(issued + 1, issued + 1));
      SweepComing(done + [t], rest[1..], issued + 1, Published(latest, t, f), s, f);
      assert (done + [t]) + Named(rest[1..], issued + 2) == done + Named(rest, issued + 1);
    }
  }

  // ---- a frame ----

  predicate Public(t: Trackable, key: nat, id: nat) {
    t.key == key && t.id == id && t.isActivated && !t.erasable
  }

  /** What a frame makes of the objects tracked before it, up to the activation loop. */
  function Remaining(c: seq<Trackable>, s: Settings, f: Frame): seq<Trackable> {
    Kept(Dropped(World(Touched(c, f), Ids(0, 0)), |c|, s, f).current)
  }

  /** Matched objects remain, with their ids; what remains carries the identity of an old object. */
  lemma RemainingShape(c: seq<Trackable>, s: Settings, f: Frame, t: Trackable)
    requires NoneErasable(c, |c|) && NoLending(s, f.geo) && t in Remaining(c, s, f)
    ensures exists o :: o in c && o.key == t.key && o.isActivated == t.isActivated && t.touched == f.seen(o.key).Some?
    ensures !t.erasable
  {
    hide Dropped, Kept;
    var d := Dropped(World(Touched(c, f), Ids(0, 0)), |c|, s, f).current;
    NothingIsLent(World(Touched(c, f), Ids(0, 0)), |c|, s, f);
    KeptShape(d);
    var i :| 0 <= i < |d| && d[i] == t;
    assert c[i] in c;
  }

  lemma MatchedRemains(c: seq<Trackable>, s: Settings, f: Frame, o: Trackable)
    requires NoneErasable(c, |c|) && NoLending(s, f.geo) && o in c && f.seen(o.key).Some?
    ensures exists t ::
      t in Remaining(c, s, f) && t.key == o.key && t.id == o.id && t.isActivated == o.isActivated && !t.erasable
  {
    hide Dropped, Kept;
    var d := Dropped(World(Touched(c, f), Ids(0, 0)), |c|, s, f).current;
    NothingIsLent(World(Touched(c, f), Ids(0, 0)), |c|, s, f);
    KeptShape(d);
    var i :| 0 <= i < |c| && c[i] == o;
    assert d[i] in d;
  }

  /** A frame in which nothing is lent: what remains, followed by the new objects, goes through the activation loop. */
  lemma FrameSweeps(st: Stage, s: Settings, f: Frame)
    requires st.isStarted != 0 && NoLending(s, f.geo)
    ensures var c := Remaining(st.world.current, s, f) + Newcomers(f, st.nextKey, |f.unseen|);
      var r := Sweep(World(c, st.world.ids), 0, [], s, f).world;
      && United(st, s, f).world == World(CleanedUp(r.current, s, f, Since(f.now, st.timestamp)), r.ids)
      && United(st, s, f).isStarted == st.isStarted && United(st, s, f).timestamp == f.now
      && United(st, s, f).nextKey == st.nextKey + |f.unseen|
  {
    hide Kept, Sweep, Touched, CleanedUp, Newcomers, Dropped;
    var w := st.world.(current := Touched(st.world.current, f));
    var v := World(w.current, Ids(0, 0));
    NothingIsLent(w, |w.current|, s, f);
    NothingIsLent(v, |w.current|, s, f);
    assert Dropped(w, |w.current|, s, f).current == Dropped(v, |w.current|, s, f).current;
    NewcomersAreNotErasable(f, st.nextKey, |f.unseen|);
    KeptConcat(Dropped(w, |w.current|, s, f).current, Newcomers(f, st.nextKey, |f.unseen|));
  }

  lemma CleaningSplits(a: seq<Trackable>, b: seq<Trackable>, s: Settings, f: Frame, timeDiff: nat)
    ensures CleanedUp(a + b, s, f, timeDiff) == CleanedUp(a, s, f, timeDiff) + CleanedUp(b, s, f, timeDiff)
  {
  }

  lemma CleaningKeepsPublic(c: seq<Trackable>, s: Settings, f: Frame, timeDiff: nat, t: Trackable)
    requires t in c
    ensures Public(t, t.key, t.id) ==> HasPublic(CleanedUp(c, s, f, timeDiff), t.key, t.id)
  {
    hide Aged, Unexpired;
    var i :| 0 <= i < |c| && c[i] == t;
    assert CleanedUp(c, s, f, timeDiff)[i] in CleanedUp(c, s, f, timeDiff);
  }

  /** When only active old objects are matched, the activation loop gives no id to an old object. */
  lemma OldAreIdle(c: seq<Trackable>, s: Settings, f: Frame)
    requires NoneErasable(c, |c|) && NoLending(s, f.geo)
    requires forall o :: o in c && f.seen(o.key).Some? ==> o.isActivated
    ensures AllIdle(Remaining(c, s, f), s, f)
  {
    hide Remaining;
    var r := Remaining(c, s, f);
    forall k | 0 <= k < |r| ensures Idle(r[k], s, f) {
      RemainingShape(c, s, f, r[k]);
    }
  }

  // ---- two frames that give an id out again ----

  /** Of the tracked objects one is matched; n new ones appear. */
  function Arrivals(now: nat, geo: Geometry, key: nat, n: nat): Frame {
    Frame(now, k => if k == key then Some(0.0) else None, seq(n, _ => 0.0), geo)
  }

  /** The one object is matched again, and so are the new ones. */
  function Return(now: nat, geo: Geometry, key: nat, first: nat): Frame {
    Frame(now, k => if k == key || k >= first then Some(0.0) else None, [], geo)
  }

  ghost predicate HasPublic(c: seq<Trackable>, key: nat, id: nat) {
    exists t :: t in c && Public(t, key, id)
  }

  /** Objects that come up at one time and are matched at another are old enough for an id. */
  predicate LetsActivate(s: Settings, from: nat, later: nat) {
    later < U64 && s.minActiveTime >= 0.0 && s.minActiveFraction >= 0.0 && s.minActiveTime < (later - from) as real
  }

  lemma BoundIsNonNegative(s: Settings)
    requires s.minActiveTime >= 0.0 && s.minActiveFraction >= 0.0
    ensures s.minActiveTime * s.minActiveFraction >= 0.0
  {
    if s.minActiveTime > 0.0 && s.minActiveFraction > 0.0 {
      ProductSigns(s.minActiveTime, s.minActiveFraction);
    }
  }

  lemma OnlyOneIsMatched(st: Stage, key: nat, id: nat)
    requires Tidy(st) && HasPublic(st.world.current, key, id)
    ensures forall o :: o in st.world.current ==> o.key < st.nextKey && (o.key == key ==> o.isActivated)
  {
    var c := st.world.current;
    var t :| t in c && Public(t, key, id);
    var j :| 0 <= j < |c| && c[j] == t;
    forall o | o in c ensures o.key < st.nextKey && (o.key == key ==> o.isActivated) {
      var i :| 0 <= i < |c| && c[i] == o;
      assert Profiles(c)[i].key == o.key && Profiles(c)[j].key == key;
    }
  }

  lemma NewcomersWait(s: Settings, f: Frame, nextKey: nat)
    requires s.minActiveTime >= 0.0 && s.minActiveTime * s.minActiveFraction >= 0.0
    ensures AllWait(Newcomers(f, nextKey, |f.unseen|), s, f)
  {
    var n := Newcomers(f, nextKey, |f.unseen|);
    NewcomersAreMany(f, nextKey, |f.unseen|);
    forall k | 0 <= k < |n| ensures Waits(n[k], s, f) {
      NewcomerAt(f, nextKey, |f.unseen|, k);
    }
  }

  lemma CleaningKeepsNewcomers(s: Settings, f: Frame, nextKey: nat, timeDiff: nat)
    requires forall k :: 0 <= k < |f.unseen| ==> f.unseen[k] == 0.0
    ensures CleanedUp(Newcomers(f, nextKey, |f.unseen|), s, f, timeDiff) == Newcomers(f, nextKey, |f.unseen|)
  {
    var n := Newcomers(f, nextKey, |f.unseen|);
    NewcomersAreMany(f, nextKey, |f.unseen|);
    forall k | 0 <= k < |n| ensures CleanedUp(n, s, f, timeDiff)[k] == n[k] {
      NewcomerAt(f, nextKey, |f.unseen|, k);
      assert Unexpired([], s.latentLifeTime, f.now) == [];
    }
  }

  lemma FirstFrame(st: Stage, s: Settings, geo: Geometry, now: nat, key: nat, id: nat, n: nat)
    returns (former: seq<Trackable>)
    requires Tidy(st) && st.isStarted == 1 && HasPublic(st.world.current, key, id)
    requires s.minActiveTime >= 0.0 && s.minActiveFraction >= 0.0 && NoLending(s, geo)
    ensures var f := Arrivals(now, geo, key, n); var r := United(st, s, f);
      && r.world == World(former + Newcomers(f, st.nextKey, n), st.world.ids) && HasPublic(former, key, id)
      && r.isStarted == 1 && r.timestamp == now && r.nextKey == st.nextKey + n
  {
    hide Remaining, Newcomers, Sweep, CleanedUp, United, Tidy;
    var f := Arrivals(now, geo, key, n);
    var c := st.world.current;
    OnlyOneIsMatched(st, key, id);
    BoundIsNonNegative(s);
    TidyIsNotErasable(st);
    FrameSweeps(st, s, f);
    OldAreIdle(c, s, f);
    var arrived := Newcomers(f, st.nextKey, n);
    assert Remaining(c, s, f) + arrived == [] + Remaining(c, s, f) + arrived;
    var kept, published := SweepIdle([], Remaining(c, s, f), arrived, st.world.ids, [], s, f);
    assert [] + kept + arrived == kept + arrived;
    NewcomersWait(s, f, st.nextKey);
    SweepWaiting(kept, arrived, st.world.ids, published, s, f);
    var d := Since(f.now, st.timestamp);
    CleaningSplits(kept, arrived, s, f, d);
    CleaningKeepsNewcomers(s, f, st.nextKey, d);
    former := CleanedUp(kept, s, f, d);
    var o :| o in c && Public(o, key, id);
    MatchedRemains(c, s, f, o);
    var t :| t in Remaining(c, s, f) && t.key == o.key && t.id == o.id && t.isActivated == o.isActivated && !t.erasable;
    CleaningKeepsPublic(kept, s, f, d, t);
  }

  lemma TidyIsNotErasable(st: Stage)
    requires Tidy(st)
    ensures NoneErasable(st.world.current, |st.world.current|)
  {
  }

  lemma RemainingSplits(a: seq<Trackable>, b: seq<Trackable>, s: Settings, f: Frame)
    requires NoLending(s, f.geo) && NoneErasable(a, |a|) && NoneErasable(b, |b|)
    requires forall k :: 0 <= k < |b| ==> f.seen(b[k].key).Some?
    ensures Remaining(a + b, s, f) == Remaining(a, s, f) + Touched(b, f)
  {
    hide Dropped, Kept;
    var w, v := World(Touched(a + b, f), Ids(0, 0)), World(Touched(a, f), Ids(0, 0));
    NothingIsLent(w, |a + b|, s, f);
    NothingIsLent(v, |a|, s, f);
    assert Dropped(w, |a + b|, s, f).current == Dropped(v, |a|, s, f).current + Touched(b, f);
    KeptConcat(Dropped(v, |a|, s, f).current, Touched(b, f));
  }

  /** Objects that arrived in frame f come of age when they are matched again long enough after. */
  lemma ArrivalsCome(s: Settings, f: Frame, first: nat, g: Frame)
    requires f.now < g.now < U64 && s.minActiveTime < (g.now - f.now) as real &&
      s.minActiveTime * s.minActiveFraction >= 0.0
    requires forall key: nat :: key >= first ==> g.seen(key).Some?
    ensures AllCome(Touched(Newcomers(f, first, |f.unseen|), g), s, g)
    ensures forall k :: 0 <= k < |Newcomers(f, first, |f.unseen|)| ==>
      g.seen(Newcomers(f, first, |f.unseen|)[k].key).Some?
    ensures NoneErasable(Newcomers(f, first, |f.unseen|), |Newcomers(f, first, |f.unseen|)|)
  {
    var n := Newcomers(f, first, |f.unseen|);
    NewcomersAreMany(f, first, |f.unseen|);
    forall k | 0 <= k < |n| ensures Comes(Touched(n, g)[k], s, g) && g.seen(n[k].key).Some? && !n[k].erasable {
      NewcomerAt(f, first, |f.unseen|, k);
      assert Since(g.now, g.now) == 0 && Since(g.now, f.now) == g.now - f.now;
    }
  }

  ghost function KeyAt(ps: seq<Profile>, i: int): Option<nat> {
    if 0 <= i < |ps| then Some(ps[i].key) else None
  }

  lemma KeyIsLow(ps: seq<Profile>, m: nat, first: nat, i: nat)
    requires DistinctKeys(ps) && i < m <= |ps| && ps[i].key < first + (|ps| - m)
    requires forall j :: m <= j < |ps| ==> ps[j].key == first + (j - m)
    ensures ps[i].key < first
  {
    var other := KeyAt(ps, m + (ps[i].key - first));
  }

  lemma FormerKeysAreLow(former: seq<Trackable>, f: Frame, first: nat, st: Stage)
    requires Tidy(st) && st.world.current == former + Newcomers(f, first, |f.unseen|)
    requires st.nextKey == first + |f.unseen|
    ensures NoneErasable(former, |former|) && forall o :: o in former ==> o.key < first
  {
    var m, n, c := |former|, Newcomers(f, first, |f.unseen|), st.world.current;
    NewcomersAreMany(f, first, |f.unseen|);
    forall j | m <= j < |c| ensures Profiles(c)[j].key == first + (j - m) {
      NewcomerAt(f, first, |f.unseen|, j - m);
    }
    forall k | 0 <= k < m ensures !former[k].erasable && former[k].key < first {
      assert c[k] == former[k] && Profiles(c)[k].key == former[k].key;
      KeyIsLow(Profiles(c), m, first, k);
    }
  }

  lemma SecondFrame(st: Stage, s: Settings, geo: Geometry, later: nat, former: seq<Trackable>, f: Frame, first: nat,
                    key: nat, id: nat)
    returns (kept: seq<Trackable>, named: seq<Trackable>)
    requires Tidy(st) && st.isStarted == 1 && HasPublic(former, key, id) && key < first
    requires LetsActivate(s, f.now, later) && NoLending(s, geo)
    requires st.world == World(former + Newcomers(f, first, |f.unseen|), Ids(0, 0)) && st.nextKey == first + |f.unseen|
    requires 0 < |f.unseen| < U32
    ensures var r := United(st, s, Return(later, geo, key, first)).world;
      && r.current == kept + named && r.ids.issued == |f.unseen|
      && HasPublic(kept, key, id) && exists t :: t in named && Public(t, t.key, |f.unseen|)
  {
    hide Remaining, Newcomers, Sweep, CleanedUp, United, Tidy, Touched;
    var g, n := Return(later, geo, key, first), |f.unseen|;
    var arrived := Newcomers(f, first, n);
    BoundIsNonNegative(s);
    FormerKeysAreLow(former, f, first, st);
    ArrivalsCome(s, f, first, g);
    FormerIsMatched(st, former, arrived, key, id);
    RemainingSplits(former, arrived, s, g);
    OldAreIdle(former, s, g);
    FrameSweeps(st, s, g);
    var grown := Touched(arrived, g);
    NoneArrive(g, st.nextKey);
    assert Remaining(former + arrived, s, g) + [] == [] + Remaining(former, s, g) + grown;
    var k, published := SweepIdle([], Remaining(former, s, g), grown, Ids(0, 0), [], s, g);
    assert [] + k + grown == k + grown;
    NewcomersAreMany(f, first, n);
    SweepComing(k, grown, 0, published, s, g);
    var d := Since(g.now, st.timestamp);
    CleaningSplits(k, Named(grown, 1), s, g, d);
    kept, named := CleanedUp(k, s, g, d), CleanedUp(Named(grown, 1), s, g, d);
    var o :| o in former && Public(o, key, id);
    MatchedRemains(former, s, g, o);
    var t :| t in Remaining(former, s, g) && t.key == o.key && t.id == o.id && t.isActivated == o.isActivated &&
      !t.erasable;
    CleaningKeepsPublic(k, s, g, d, t);
    LastIsNamed(f, first, g);
    var last := Named(grown, 1)[n - 1];
    CleaningKeepsPublic(Named(grown, 1), s, g, d, last);
  }

  lemma NoneArrive(g: Frame, nextKey: nat)
    requires g.unseen == []
    ensures Newcomers(g, nextKey, |g.unseen|) == []
  {
  }

  lemma FormerIsMatched(st: Stage, former: seq<Trackable>, arrived: seq<Trackable>, key: nat, id: nat)
    requires Tidy(st) && st.world.current == former + arrived && HasPublic(former, key, id)
    ensures forall o :: o in former && o.key == key ==> o.isActivated
  {
    hide Tidy;
    var t :| t in former && Public(t, key, id);
    assert t in st.world.current;
    OnlyOneIsMatched(st, key, id);
  }

  lemma LastIsNamed(f: Frame, first: nat, g: Frame)
    requires |f.unseen| > 0
    ensures var n := Named(Touched(Newcomers(f, first, |f.unseen|), g), 1);
      |n| == |f.unseen| && Public(n[|n| - 1], first + |n| - 1, |n|)
  {
    NewcomersAreMany(f, first, |f.unseen|);
    NewcomerAt(f, first, |f.unseen|, |f.unseen| - 1);
  }

  lemma {:induction false} PublicIsCounted(c: seq<Trackable>, key: nat, id: nat)
    requires HasPublic(c, key, id)
    ensures Count(c, id) >= 1
  {
    var t :| t in c && Public(t, key, id);
    var i :| 0 <= i < |c| && c[i] == t;
    CountAt(c, i, id);
  }

  /** Two frames after an unsafe start an id that is in use has been given out again: it is enough that new objects come
      up beside the one that uses it, and are seen again when they are old enough. */
  lemma UnsafeStartDuplicates(st: Stage, s: Settings, geo: Geometry, now: nat, later: nat, key: nat, id: nat)
    requires Tidy(st) && st.isStarted != 1 && LetsActivate(s, now, later) && NoLending(s, geo)
    requires HasPublic(st.world.current, key, id) && 1 <= id < 0x8000_0000
    ensures var events := [Unite(Arrivals(now, geo, key, id)), Unite(Return(later, geo, key, st.nextKey))];
      var r := Run(Started(st), s, events).world;
      r.ids.issued == id && Count(r.current, id) >= 2
  {
    hide Newcomers, United, Tidy, Count;
    var a, f, g := Started(st), Arrivals(now, geo, key, id), Return(later, geo, key, st.nextKey);
    StartKeepsTidy(st);
    var former := FirstFrame(a, s, geo, now, key, id, id);
    var b := United(a, s, f);
    FrameKeepsTidy(a, s, f);
    OnlyOneIsMatched(st, key, id);
    var kept, named := SecondFrame(b, s, geo, later, former, f, st.nextKey, key, id);
    TwoEvents(a, s, Unite(f), Unite(g));
    var t :| t in named && Public(t, t.key, id);
    PublicIsCounted(kept, key, id);
    PublicIsCounted(named, t.key, id);
    CountConcat(kept, named, id);
  }

  lemma TwoEvents(st: Stage, s: Settings, e: Event, e': Event)
    ensures Run(st, s, [e, e']) == After(After(st, s, e), s, e')
  {
    hide After;
    assert [e, e'][..1] == [e] && [e][..0] == [];
    assert Run(st, s, [e]) == After(Run(st, s, []), s, e);
  }

  // ---- from the very beginning ----

  /** A new stage that was not started tracks an object and makes it public. */
  lemma FirstId(st: Stage, s: Settings, geo: Geometry, t: nat, u: nat)
    requires New(st) && st.world.ids == Ids(0, 0) && LetsActivate(s, t, u) && NoLending(s, geo)
    ensures var r := Run(st, s, [Unite(Arrivals(t, geo, 0, 1)), Unite(Return(u, geo, 0, st.nextKey))]);
      HasPublic(r.world.current, st.nextKey, 1) && r.isStarted == -1 && r.nextKey == st.nextKey + 1
  {
    hide Remaining, Newcomers, Sweep, CleanedUp, United, Touched;
    var f, g, first := Arrivals(t, geo, 0, 1), Return(u, geo, 0, st.nextKey), st.nextKey;
    TwoEvents(st, s, Unite(f), Unite(g));
    var arrived := Newcomers(f, first, 1);
    BoundIsNonNegative(s);
    NothingRemains(s, f);
    NothingRemains(s, g);
    FrameSweeps(st, s, f);
    NewcomersWait(s, f, first);
    assert [] + arrived == arrived;
    SweepWaiting([], arrived, Ids(0, 0), [], s, f);
    CleaningKeepsNewcomers(s, f, first, Since(t, st.timestamp));
    var b := United(st, s, f);
    ArrivalsCome(s, f, first, g);
    RemainingSplits([], arrived, s, g);
    FrameSweeps(b, s, g);
    NoneArrive(g, b.nextKey);
    var grown := Touched(arrived, g);
    assert [] + grown + [] == [] + grown == grown;
    NewcomersAreMany(f, first, 1);
    SweepComing([], grown, 0, [], s, g);
    assert [] + Named(grown, 1) == Named(grown, 1);
    LastIsNamed(f, first, g);
    CleaningKeepsPublic(Named(grown, 1), s, g, Since(u, t), Named(grown, 1)[0]);
  }

  lemma NothingRemains(s: Settings, f: Frame)
    ensures Remaining([], s, f) == []
  {
  }

  /** A run of a new stage, with any times far enough apart and, if ids are not lent, anywhere: an object is tracked and
      made public, the stage is started, another object comes up and is made public, and both have the first id, though
      no other id was issued. */
  lemma StartingLateDuplicates(st: Stage, s: Settings, geo: Geometry, t: nat, u: nat, v: nat, w: nat)
    requires New(st) && st.world.ids == Ids(0, 0) && NoLending(s, geo)
    requires LetsActivate(s, t, u) && LetsActivate(s, v, w)
    ensures var key, again := st.nextKey, st.nextKey + 1;
      var r := Run(st, s, [Unite(Arrivals(t, geo, 0, 1)), Unite(Return(u, geo, 0, key)), Start,
                           Unite(Arrivals(v, geo, key, 1)), Unite(Return(w, geo, key, again))]).world;
      r.ids.issued == 1 && Count(r.current, 1) >= 2
  {
    hide United, Tidy, Count, LetsActivate;
    var early := [Unite(Arrivals(t, geo, 0, 1)), Unite(Return(u, geo, 0, st.nextKey))];
    var late := [Unite(Arrivals(v, geo, st.nextKey, 1)), Unite(Return(w, geo, st.nextKey, st.nextKey + 1))];
    FirstId(st, s, geo, t, u);
    NewIsTidy(st);
    RunKeepsTidy(st, s, early);
    var b := Run(st, s, early);
    UnsafeStartDuplicates(b, s, geo, v, w, st.nextKey, 1);
    RunOfThree(st, s, early, late);
    assert early + [Start] + late == [early[0], early[1], Start, late[0], late[1]];
  }

  lemma NewIsTidy(st: Stage)
    requires New(st)
    ensures Tidy(st)
  {
  }

  lemma RunOfThree(st: Stage, s: Settings, early: seq<Event>, late: seq<Event>)
    requires |late| == 2
    ensures Run(st, s, early + [Start] + late) == Run(Started(Run(st, s, early)), s, late)
  {
    hide United;
    var e, b := early + [Start], Started(Run(st, s, early));
    assert e[..|early|] == early && Run(st, s, e) == b;
    assert (e + late)[..|e| + 1] == e + late[..1] && (e + late[..1])[..|e|] == e;
    assert late == [late[0], late[1]];
    TwoEvents(b, s, late[0], late[1]);
  }

  /** Some tracked object is active, as soon as an id is in use at all. */
  lemma {:induction false} UserIsActive(c: seq<Trackable>, x: nat)
    requires AllPrivate(c) && NoneErasable(c, |c|) && Count(c, x) > 0
    ensures exists t :: t in c && Public(t, t.key, t.id)
  {
    var front, last := c[..|c| - 1], c[|c| - 1];
    assert c == front + [last] && Private(last);
    if Count(front, x) > 0 {
      assert forall i :: 0 <= i < |front| ==> front[i] == c[i];
      UserIsActive(front, x);
    }
  }

  const PORTALS := Geometry((_, _) => 0.0, (_, _) => 0.0, _ => true, _ => false)

  /** Starting a stage is safe - whatever follows, as long as fewer than 2^31 ids are issued no id is in use twice -
      iff the stage is started already or nothing that is tracked uses an id. */
  lemma StartIsSafeIff(st: Stage, s: Settings)
    requires StageOk(st) && Tidy(st) && st.world.ids.issued < 0x8000_0000 && LetsActivate(s, st.timestamp, U64 - 1)
    ensures SafeToStart(st) <==>
      forall events, x: nat ::
        Run(Started(st), s, events).world.ids.issued < 0x8000_0000 ==>
          Count(Run(Started(st), s, events).world.current, x) <= 1
  {
    hide Run, Count, United, Tidy, WorldOk;
    if SafeToStart(st) {
      StartKeepsStage(st);
      forall events, x: nat | Run(Started(st), s, events).world.ids.issued < 0x8000_0000
        ensures Count(Run(Started(st), s, events).world.current, x) <= 1
      {
        SessionsStartSafely(Started(st), s, events);
        RunKeepsStage(Started(st), s, events);
        StageIsDistinct(Run(Started(st), s, events));
      }
    } else {
      var x: nat :| Count(st.world.current, x) > 0;
      var t := UserOf(st, x);
      UnsafeStartDuplicates(st, s, PORTALS, st.timestamp, U64 - 1, t.key, t.id);
    }
  }

  lemma UserOf(st: Stage, x: nat) returns (t: Trackable)
    requires StageOk(st) && st.world.ids.issued < 0x8000_0000 && Count(st.world.current, x) > 0
    ensures HasPublic(st.world.current, t.key, t.id) && 1 <= t.id < 0x8000_0000
  {
    hide Count;
    var c := st.world.current;
    UserIsActive(c, x);
    t :| t in c && Public(t, t.key, t.id);
    PublicIsCounted(c, t.key, t.id);
    assert Distinct(st.world);
  }
}
