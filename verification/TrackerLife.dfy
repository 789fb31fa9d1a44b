/** The life of a tracked object: although a frame is processed in loops that mark, erase and lend ids among
    objects, what becomes of each object depends on its own times alone.  */
module TrackerLife {
  import opened Common
  import opened Tracker
  import opened TrackerIds

  /** What a frame may change of an object apart from its ids. */
  datatype Profile = Profile(key: nat, isActivated: bool, touched: bool, firstTime: nat, lastTime: nat)

  function ProfileOf(t: Trackable): Profile {
    Profile(t.key, t.isActivated, t.touched, t.firstTime, t.lastTime)
  }

  /** The fate of an object in a frame. A tracked object is lost once it has not been matched for the keep time; on
      probation it is also lost when stale, and it becomes active in a frame in which it is matched and older than
      the minimal time. */
  function Fate(p: Profile, s: Settings, f: Frame): Option<Profile> {
    var seen := f.seen(p.key).Some?;
    var q := p.(touched := seen, lastTime := if seen then f.now else p.lastTime);
    if !seen && Since(f.now, q.lastTime) as real >= s.keepTime then None
    else Probation(q, s, f)
  }

  function Probation(q: Profile, s: Settings, f: Frame): Option<Profile> {
    if q.isActivated then Some(q)
    else if Since(f.now, q.lastTime) as real > s.minActiveTime * s.minActiveFraction then None
    else if q.touched && Since(f.now, q.firstTime) as real > s.minActiveTime then Some(q.(isActivated := true))
    else Some(q)
  }

  function Present(o: Option<Profile>): seq<Profile> {
    if o.Some? then [o.value] else []
  }

  function Profiles(current: seq<Trackable>): (r: seq<Profile>)
    ensures |r| == |current|
  {
    seq(|current|, i requires 0 <= i < |current| => ProfileOf(current[i]))
  }

  function Fates(ps: seq<Profile>, s: Settings, f: Frame): seq<Profile> {
    if ps == [] then [] else Fates(ps[..|ps| - 1], s, f) + Present(Fate(ps[|ps| - 1], s, f))
  }

  function Probations(ps: seq<Profile>, s: Settings, f: Frame): seq<Profile> {
    if ps == [] then [] else Present(Probation(ps[0], s, f)) + Probations(ps[1..], s, f)
  }

  // ---- marking and lending change no profile ----

  lemma {:induction false} DroppedMarks(w: World, i: nat, s: Settings, f: Frame)
    requires i <= |w.current|
    ensures Profiles(Dropped(w, i, s, f).current) == Profiles(w.current)
    ensures forall k :: 0 <= k < |w.current| ==>
      (Dropped(w, i, s, f).current[k].erasable <==> w.current[k].erasable || (k < i && Overdue(w.current[k], s, f)))
    decreases i
  {
    hide PutLatentId;
    if i > 0 {
      if Overdue(w.current[i - 1], s, f) {
        PuttingKeepsProfiles(w, i - 1, s, f);
        var p := if f.geo.portal(w.current[i - 1].key) then w else PutLatentId(w, i - 1, s, f);
        var q := p.(current := p.current[i - 1 := p.current[i - 1].(erasable := true)]);
        forall k | 0 <= k < |w.current|
          ensures ProfileOf(q.current[k]) == ProfileOf(w.current[k])
          ensures q.current[k].erasable == (w.current[k].erasable || k == i - 1)
          ensures Overdue(q.current[k], s, f) == Overdue(w.current[k], s, f)
        {
          assert Profiles(p.current)[k] == Profiles(w.current)[k];
        }
        assert Profiles(q.current) == Profiles(w.current);
        DroppedMarks(q, i - 1, s, f);
      } else {
        DroppedMarks(w, i - 1, s, f);
      }
    }
  }

  lemma PuttingKeepsProfiles(w: World, i: nat, s: Settings, f: Frame)
    requires i < |w.current|
    ensures Profiles(PutLatentId(w, i, s, f).current) == Profiles(w.current)
    ensures forall k :: 0 <= k < |w.current| ==> PutLatentId(w, i, s, f).current[k].erasable == w.current[k].erasable
  {
  }

  // ---- probation and activation, object by object ----

  lemma SweptOne(w: World, i: nat, s: Settings, f: Frame, v: World)
    requires i < |w.current| && !(!w.current[i].isActivated && Tracker.Stale(w.current[i], s, f))
    requires v == if !w.current[i].isActivated && Ripe(w.current[i], s, f) then Activated(w, i, s, f) else w
    ensures |v.current| == |w.current|
    ensures Probation(ProfileOf(w.current[i]), s, f) == Some(ProfileOf(v.current[i]))
    ensures forall k :: 0 <= k < |w.current| && k != i ==> ProfileOf(v.current[k]) == ProfileOf(w.current[k])
  {
    hide GetLatentId, NextId;
    if !w.current[i].isActivated && Ripe(w.current[i], s, f) {
      ReclaimingShape(w.current, w.current[i], f.geo, |w.current|, s.latentDistance, 0);
    }
  }

  lemma ProbationsUnfold(ps: seq<Profile>, i: nat, s: Settings, f: Frame)
    requires i < |ps|
    ensures var p := Probation(ps[i], s, f);
      Probations(ps[i..], s, f) ==
        if p.Some? then [p.value] + Probations(ps[i + 1..], s, f) else Probations(ps[i + 1..], s, f)
  {
    hide Probation;
    assert ps[i..][0] == ps[i] && ps[i..][1..] == ps[i + 1..];
    assert [] + Probations(ps[i + 1..], s, f) == Probations(ps[i + 1..], s, f);
  }

  lemma NoProbations(s: Settings, f: Frame)
    ensures Probations([], s, f) == []
  {
  }

  lemma ProfilesWithout(current: seq<Trackable>, i: nat)
    requires i < |current|
    ensures var ps, qs := Profiles(current), Profiles(current[..i] + current[i + 1..]);
      qs[..i] == ps[..i] && qs[i..] == ps[i + 1..] && ps[i] == ProfileOf(current[i])
  {
  }

  lemma ProfilesWithOne(a: seq<Trackable>, b: seq<Trackable>, i: nat)
    requires i < |a| == |b| && forall k :: 0 <= k < |a| && k != i ==> ProfileOf(b[k]) == ProfileOf(a[k])
    ensures var ps, qs := Profiles(a), Profiles(b);
      qs[..i + 1] == ps[..i] + [ProfileOf(b[i])] && qs[i + 1..] == ps[i + 1..] && ps[i] == ProfileOf(a[i])
  {
    var ps, qs := Profiles(a), Profiles(b);
    assert qs[..i + 1][..i] == ps[..i];
  }

  lemma {:induction false} SweepIsProbation(w: World, i: nat, latest: seq<nat>, s: Settings, f: Frame)
    requires i <= |w.current|
    ensures Profiles(Sweep(w, i, latest, s, f).world.current) ==
      Profiles(w.current)[..i] + Probations(Profiles(w.current)[i..], s, f)
    decreases |w.current| - i
  {
    hide Activated, Probation, Sweep, Profiles, Probations;
    var ps := Profiles(w.current);
    if i < |w.current| {
      var t := w.current[i];
      SweepUnfolds(w, i, latest, s, f);
      ProbationsUnfold(ps, i, s, f);
      if !t.isActivated && Tracker.Stale(t, s, f) {
        var v := w.(current := w.current[..i] + w.current[i + 1..]);
        SweepIsProbation(v, i, latest, s, f);
        ProfilesWithout(w.current, i);
        StaleIsLost(t, s, f);
      } else {
        var v := if !t.isActivated && Ripe(t, s, f) then Activated(w, i, s, f) else w;
        var u := v.current[i];
        SweptOne(w, i, s, f, v);
        SweepIsProbation(v, i + 1, Published(latest, u, f), s, f);
        ProfilesWithOne(w.current, v.current, i);
        assert ps[..i] + [ProfileOf(u)] + Probations(ps[i + 1..], s, f) ==
          ps[..i] + ([ProfileOf(u)] + Probations(ps[i + 1..], s, f));
      }
    } else {
      SweepEnds(w, latest, s, f);
      NoProbations(s, f);
      assert ps[..i] == ps && ps[i..] == [];
      assert ps + [] == ps;
    }
  }

  lemma StaleIsLost(t: Trackable, s: Settings, f: Frame)
    requires !t.isActivated && Tracker.Stale(t, s, f)
    ensures Probation(ProfileOf(t), s, f) == None
  {
  }

  // ---- a whole frame ----

  /** Touching, marking and removing, seen object by object. */
  function Survives(p: Profile, s: Settings, f: Frame): Option<Profile> {
    var seen := f.seen(p.key).Some?;
    var q := p.(touched := seen, lastTime := if seen then f.now else p.lastTime);
    if !seen && Since(f.now, q.lastTime) as real >= s.keepTime then None else Some(q)
  }

  function Survivors(ps: seq<Profile>, s: Settings, f: Frame): seq<Profile> {
    if ps == [] then [] else Survivors(ps[..|ps| - 1], s, f) + Present(Survives(ps[|ps| - 1], s, f))
  }

  lemma {:induction false} ProbationOfSurvivors(ps: seq<Profile>, s: Settings, f: Frame)
    ensures Probations(Survivors(ps, s, f), s, f) == Fates(ps, s, f)
  {
    if ps != [] {
      var front, last := ps[..|ps| - 1], ps[|ps| - 1];
      ProbationOfSurvivors(front, s, f);
      ProbationsConcat(Survivors(front, s, f), Present(Survives(last, s, f)), s, f);
      if Survives(last, s, f).Some? {
        assert Probations([Survives(last, s, f).value][1..], s, f) == [];
      }
    }
  }

  lemma {:induction false} ProbationsConcat(a: seq<Profile>, b: seq<Profile>, s: Settings, f: Frame)
    ensures Probations(a + b, s, f) == Probations(a, s, f) + Probations(b, s, f)
  {
    if a == [] {
      assert a + b == b;
    } else {
      assert (a + b)[1..] == a[1..] + b;
      ProbationsConcat(a[1..], b, s, f);
    }
  }

  /** `current` after touching and marking, compared with the objects before. */
  ghost predicate Marked(before: seq<Trackable>, after: seq<Trackable>, s: Settings, f: Frame) {
    && |after| == |before|
    && forall k :: 0 <= k < |before| ==> MarkedAt(before[k], after[k], s, f)
  }

  ghost predicate MarkedAt(t: Trackable, u: Trackable, s: Settings, f: Frame) {
    Survives(ProfileOf(t), s, f) == if u.erasable then None else Some(ProfileOf(u))
  }

  lemma TouchedAndDroppedAreMarked(w: World, s: Settings, f: Frame)
    requires NoneErasable(w.current, |w.current|)
    ensures var w0 := w.(current := Touched(w.current, f));
      Marked(w.current, Dropped(w0, |w0.current|, s, f).current, s, f)
  {
    hide Dropped;
    var w0 := w.(current := Touched(w.current, f));
    DroppedMarks(w0, |w0.current|, s, f);
    var d := Dropped(w0, |w0.current|, s, f).current;
    forall k | 0 <= k < |d| ensures MarkedAt(w.current[k], d[k], s, f) {
      assert Profiles(d)[k] == Profiles(w0.current)[k];
    }
  }

  lemma {:induction false} KeptAreSurvivors(before: seq<Trackable>, after: seq<Trackable>, s: Settings, f: Frame)
    requires Marked(before, after, s, f)
    ensures Profiles(Kept(after)) == Survivors(Profiles(before), s, f)
  {
    hide Survives;
    if before != [] {
      var n := |before| - 1;
      KeptAreSurvivors(before[..n], after[..n], s, f);
      assert Profiles(before)[..n] == Profiles(before[..n]);
      assert MarkedAt(before[n], after[n], s, f);
    }
  }

  lemma {:induction false} KeptConcat(a: seq<Trackable>, b: seq<Trackable>)
    requires NoneErasable(b, |b|)
    ensures Kept(a + b) == Kept(a) + b
  {
    if b == [] {
      assert a + b == a;
    } else {
      assert (a + b)[..|a + b| - 1] == a + b[..|b| - 1];
      KeptConcat(a, b[..|b| - 1]);
      assert b == b[..|b| - 1] + [b[|b| - 1]];
    }
  }

  lemma NewcomersAreNotErasable(f: Frame, nextKey: nat, k: nat)
    requires k <= |f.unseen|
    ensures NoneErasable(Newcomers(f, nextKey, k), |Newcomers(f, nextKey, k)|)
  {
  }

  /** After a frame the tracked objects are exactly the old ones that live on, each as its own fate has it, followed
      by the new ones that are not lost at once: no object's life depends on any other object. */
  lemma LivesAreIndependent(st: Stage, s: Settings, frame: Frame)
    requires NoneErasable(st.world.current, |st.world.current|)
    ensures var f := Effective(st, frame);
      Profiles(United(st, s, frame).world.current) ==
        Fates(Profiles(st.world.current), s, f) + Probations(Profiles(Newcomers(f, st.nextKey, |f.unseen|)), s, f)
  {
    hide Touched, Dropped, Kept, Newcomers, Sweep, Survivors, Fates, Probations;
    var f := Effective(st, frame);
    var w0 := st.world.(current := Touched(st.world.current, f));
    var w1 := Dropped(w0, |w0.current|, s, f);
    var n := Newcomers(f, st.nextKey, |f.unseen|);
    var w2 := w1.(current := Kept(w1.current + n));
    var r := Sweep(w2, 0, [], s, f);
    TouchedAndDroppedAreMarked(st.world, s, f);
    KeptAreSurvivors(st.world.current, w1.current, s, f);
    NewcomersAreNotErasable(f, st.nextKey, |f.unseen|);
    KeptConcat(w1.current, n);
    assert Profiles(Kept(w1.current) + n) == Profiles(Kept(w1.current)) + Profiles(n);
    SweepIsProbation(w2, 0, [], s, f);
    assert Profiles(w2.current)[..0] + Probations(Profiles(w2.current)[0..], s, f) ==
      Probations(Profiles(w2.current), s, f) by {
      assert Profiles(w2.current)[0..] == Profiles(w2.current);
    }
    ProbationsConcat(Survivors(Profiles(st.world.current), s, f), Profiles(n), s, f);
    ProbationOfSurvivors(Profiles(st.world.current), s, f);
    assert Profiles(CleanedUp(r.world.current, s, f, Since(f.now, st.timestamp))) == Profiles(r.world.current);
  }

  // ---- what is published ----

  function PublishedKeys(ps: seq<Profile>, f: Frame): seq<nat> {
    if ps == [] then []
    else
      PublishedKeys(ps[..|ps| - 1], f) +
      if ps[|ps| - 1].isActivated && !f.geo.occluded(ps[|ps| - 1].key) then [ps[|ps| - 1].key] else []
  }

  lemma {:induction false} SweepPublishes(w: World, i: nat, latest: seq<nat>, s: Settings, f: Frame)
    requires i <= |w.current| && latest == PublishedKeys(Profiles(w.current)[..i], f)
    ensures Sweep(w, i, latest, s, f).latest == PublishedKeys(Profiles(Sweep(w, i, latest, s, f).world.current), f)
    decreases |w.current| - i
  {
    hide Activated, Probation, Sweep;
    var ps := Profiles(w.current);
    if i < |w.current| {
      var t := w.current[i];
      SweepUnfolds(w, i, latest, s, f);
      if !t.isActivated && Tracker.Stale(t, s, f) {
        var v := w.(current := w.current[..i] + w.current[i + 1..]);
        assert Profiles(v.current)[..i] == ps[..i];
        SweepPublishes(v, i, latest, s, f);
      } else {
        var v := if !t.isActivated && Ripe(t, s, f) then Activated(w, i, s, f) else w;
        var u := v.current[i];
        SweptOne(w, i, s, f, v);
        var qs := Profiles(v.current);
        assert qs[..i + 1][..i] == ps[..i];
        var l := Published(latest, u, f);
        assert l == PublishedKeys(qs[..i + 1], f);
        SweepPublishes(v, i + 1, l, s, f);
      }
    } else {
      SweepEnds(w, latest, s, f);
      assert ps[..i] == ps;
    }
  }

  /** The published list holds exactly the active objects that are not masked, in order. */
  lemma PublishedIsActive(st: Stage, s: Settings, frame: Frame)
    ensures var r := United(st, s, frame);
      r.latest == PublishedKeys(Profiles(r.world.current), Effective(st, frame))
  {
    hide Touched, Dropped, Kept, Newcomers, Sweep;
    var f := Effective(st, frame);
    var w0 := st.world.(current := Touched(st.world.current, f));
    var w1 := Dropped(w0, |w0.current|, s, f);
    var w2 := w1.(current := Kept(w1.current + Newcomers(f, st.nextKey, |f.unseen|)));
    assert Profiles(w2.current)[..0] == [];
    SweepPublishes(w2, 0, [], s, f);
    var r := Sweep(w2, 0, [], s, f);
    assert Profiles(CleanedUp(r.world.current, s, f, Since(f.now, st.timestamp))) == Profiles(r.world.current);
  }

  // ---- a life over many frames ----

  /** An object after the first k frames, if it is still tracked. */
  function LifeOver(p: Profile, s: Settings, frames: seq<Frame>, k: nat): Option<Profile>
    requires k <= |frames|
  {
    if k == 0 then Some(p)
    else
      var q := LifeOver(p, s, frames, k - 1);
      if q.None? then None else Fate(q.value, s, frames[k - 1])
  }

  /** When the object was last matched. */
  function LastSeen(p: Profile, frames: seq<Frame>, k: nat): nat
    requires k <= |frames|
  {
    if k == 0 then p.lastTime
    else if frames[k - 1].seen(p.key).Some? then frames[k - 1].now
    else LastSeen(p, frames, k - 1)
  }

  /** In frame j the object is matched and older than the minimal time. */
  predicate ComesOfAge(p: Profile, s: Settings, frames: seq<Frame>, j: nat)
    requires j < |frames|
  {
    frames[j].seen(p.key).Some? && Since(frames[j].now, p.firstTime) as real > s.minActiveTime
  }

  predicate FreshIn(p: Profile, s: Settings, frames: seq<Frame>, j: nat)
    requires j < |frames|
  {
    Since(frames[j].now, LastSeen(p, frames, j + 1)) as real <= s.minActiveTime * s.minActiveFraction
  }

  ghost predicate CameOfAge(p: Profile, s: Settings, frames: seq<Frame>, k: nat, j: nat)
    requires k <= |frames|
  {
    j < k && ComesOfAge(p, s, frames, j) && forall i :: 0 <= i <= j ==> FreshIn(p, s, frames, i)
  }

  /** Over any run of frames a tracked object that started on probation is active iff in some frame it was matched and
      older than the minimal time while it had not been stale in any frame up to then. */
  lemma {:induction false} ActiveIffCameOfAge(p: Profile, s: Settings, frames: seq<Frame>, k: nat)
    requires k <= |frames| && !p.isActivated && LifeOver(p, s, frames, k).Some?
    ensures var q := LifeOver(p, s, frames, k).value;
      && q.key == p.key && q.firstTime == p.firstTime && q.lastTime == LastSeen(p, frames, k)
      && (q.isActivated <==> exists j: nat :: CameOfAge(p, s, frames, k, j))
      && (!q.isActivated ==> forall i :: 0 <= i < k ==> FreshIn(p, s, frames, i))
  {
    if k > 0 {
      ActiveIffCameOfAge(p, s, frames, k - 1);
      var q := LifeOver(p, s, frames, k - 1).value;
      var r := LifeOver(p, s, frames, k).value;
      if q.isActivated {
        var j: nat :| CameOfAge(p, s, frames, k - 1, j);
        assert CameOfAge(p, s, frames, k, j);
      } else {
        assert FreshIn(p, s, frames, k - 1);
        assert ComesOfAge(p, s, frames, k - 1) ==> CameOfAge(p, s, frames, k, k - 1);
        if r.isActivated {
          assert CameOfAge(p, s, frames, k, k - 1);
        } else {
          forall j: nat ensures !CameOfAge(p, s, frames, k, j) {
            assert CameOfAge(p, s, frames, k, j) && j < k - 1 ==> CameOfAge(p, s, frames, k - 1, j);
          }
        }
      }
    }
  }

  /** An active object is lost in a frame iff it is not matched in it and has not been for the keep time. */
  lemma {:induction false} ActiveUntilOverdue(p: Profile, s: Settings, frames: seq<Frame>, k: nat)
    requires k < |frames| && p.isActivated && LifeOver(p, s, frames, k).Some?
    ensures var q := LifeOver(p, s, frames, k).value;
      q.isActivated && q.key == p.key && q.lastTime == LastSeen(p, frames, k)
    ensures LifeOver(p, s, frames, k + 1).None? <==>
      frames[k].seen(p.key).None? && Since(frames[k].now, LastSeen(p, frames, k)) as real >= s.keepTime
  {
    if k > 0 {
      ActiveUntilOverdue(p, s, frames, k - 1);
    }
  }
}
