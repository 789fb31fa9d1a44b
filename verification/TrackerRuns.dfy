/** Whole sessions: what is published was activated in some frame in which it was matched and old enough, having been
    fresh on probation, and it only disappears when it is overdue or the stage is emptied.  */
module TrackerRuns {
  import opened Common
  import opened Tracker
  import opened TrackerIds
  import opened TrackerLife

  lemma {:induction false} FatesMembers(ps: seq<Profile>, s: Settings, f: Frame, q: Profile)
    ensures q in Fates(ps, s, f) <==> exists p :: p in ps && Fate(p, s, f) == Some(q)
  {
    hide Fate;
    if ps != [] {
      var front, last := ps[..|ps| - 1], ps[|ps| - 1];
      FatesMembers(front, s, f, q);
      assert ps == front + [last];
    }
  }

  lemma {:induction false} ProbationsMembers(ps: seq<Profile>, s: Settings, f: Frame, q: Profile)
    ensures q in Probations(ps, s, f) <==> exists p :: p in ps && Probation(p, s, f) == Some(q)
  {
    hide Probation;
    if ps != [] {
      ProbationsMembers(ps[1..], s, f, q);
      assert ps == [ps[0]] + ps[1..];
    }
  }

  lemma {:induction false} NewcomerAt(f: Frame, nextKey: nat, k: nat, i: nat)
    requires i < k <= |f.unseen|
    ensures |Newcomers(f, nextKey, k)| == k && Newcomers(f, nextKey, k)[i] == Newcomer(nextKey + i, f.now, f.unseen[i])
  {
    NewcomersAreMany(f, nextKey, k);
    NewcomersAreMany(f, nextKey, k - 1);
    if i < k - 1 {
      NewcomerAt(f, nextKey, k - 1, i);
    }
  }

  lemma {:induction false} NewcomersAreMany(f: Frame, nextKey: nat, k: nat)
    requires k <= |f.unseen|
    ensures |Newcomers(f, nextKey, k)| == k
  {
    if k > 0 {
      NewcomersAreMany(f, nextKey, k - 1);
    }
  }

  lemma NewcomersAreNew(f: Frame, nextKey: nat, p: Profile)
    requires p in Profiles(Newcomers(f, nextKey, |f.unseen|))
    ensures !p.isActivated && p.touched && p.firstTime == p.lastTime == f.now && nextKey <= p.key < nextKey + |f.unseen|
  {
    var n := Newcomers(f, nextKey, |f.unseen|);
    NewcomersAreMany(f, nextKey, |f.unseen|);
    var i :| 0 <= i < |n| && p == ProfileOf(n[i]);
    NewcomerAt(f, nextKey, |f.unseen|, i);
  }

  // ---- identities ----

  ghost predicate DistinctKeys(ps: seq<Profile>) {
    forall i, j :: 0 <= i < j < |ps| ==> ps[i].key != ps[j].key
  }

  ghost predicate KeysWithin(ps: seq<Profile>, low: nat, high: nat) {
    forall i :: 0 <= i < |ps| ==> low <= ps[i].key < high
  }

  /** Between frames: nothing is marked, a stopped stage is empty, and tracked objects have different identities, all of
      them given out before. */
  ghost predicate Tidy(st: Stage) {
    && NoneErasable(st.world.current, |st.world.current|)
    && (st.isStarted == 0 ==> st.world.current == [])
    && DistinctKeys(Profiles(st.world.current)) && KeysWithin(Profiles(st.world.current), 0, st.nextKey)
  }

  lemma FateKeepsKey(p: Profile, s: Settings, f: Frame)
    ensures Fate(p, s, f).Some? ==> Fate(p, s, f).value.key == p.key
    ensures Probation(p, s, f).Some? ==> Probation(p, s, f).value.key == p.key
  {
  }

  lemma {:induction false} FatesKeepKeys(ps: seq<Profile>, s: Settings, f: Frame, low: nat, high: nat)
    requires DistinctKeys(ps) && KeysWithin(ps, low, high)
    ensures DistinctKeys(Fates(ps, s, f)) && KeysWithin(Fates(ps, s, f), low, high)
    ensures forall q :: q in Fates(ps, s, f) ==> exists p :: p in ps && p.key == q.key
  {
    hide Fate;
    if ps != [] {
      var front, last := ps[..|ps| - 1], ps[|ps| - 1];
      FatesKeepKeys(front, s, f, low, high);
      FateKeepsKey(last, s, f);
      assert ps == front + [last];
      var fates := Fates(front, s, f);
      forall i | 0 <= i < |fates| ensures fates[i].key != last.key {
        assert fates[i] in fates;
      }
    }
  }

  lemma {:induction false} ProbationsKeepKeys(ps: seq<Profile>, s: Settings, f: Frame, low: nat, high: nat)
    requires DistinctKeys(ps) && KeysWithin(ps, low, high)
    ensures DistinctKeys(Probations(ps, s, f)) && KeysWithin(Probations(ps, s, f), low, high)
    ensures forall q :: q in Probations(ps, s, f) ==> exists p :: p in ps && p.key == q.key
  {
    hide Probation;
    if ps != [] {
      ProbationsKeepKeys(ps[1..], s, f, low, high);
      FateKeepsKey(ps[0], s, f);
      assert ps == [ps[0]] + ps[1..];
      var rest := Probations(ps[1..], s, f);
      forall i | 0 <= i < |rest| ensures rest[i].key != ps[0].key {
        assert rest[i] in rest;
      }
    }
  }

  lemma KeysJoin(a: seq<Profile>, b: seq<Profile>, m: nat, n: nat)
    requires DistinctKeys(a) && KeysWithin(a, 0, m) && DistinctKeys(b) && KeysWithin(b, m, n) && m <= n
    ensures DistinctKeys(a + b) && KeysWithin(a + b, 0, n)
  {
  }

  lemma NewcomersHaveKeys(f: Frame, nextKey: nat)
    ensures var ps := Profiles(Newcomers(f, nextKey, |f.unseen|));
      DistinctKeys(ps) && KeysWithin(ps, nextKey, nextKey + |f.unseen|)
  {
    var n := Newcomers(f, nextKey, |f.unseen|);
    NewcomersAreMany(f, nextKey, |f.unseen|);
    forall i | 0 <= i < |n| ensures Profiles(n)[i].key == nextKey + i {
      NewcomerAt(f, nextKey, |f.unseen|, i);
    }
  }

  lemma {:induction false} SweepMarksNothing(w: World, i: nat, latest: seq<nat>, s: Settings, f: Frame)
    requires i <= |w.current| && NoneErasable(w.current, |w.current|)
    ensures var c := Sweep(w, i, latest, s, f).world.current; NoneErasable(c, |c|)
    decreases |w.current| - i
  {
    hide Activated, Sweep;
    if i < |w.current| {
      SweepUnfolds(w, i, latest, s, f);
      var t := w.current[i];
      if !t.isActivated && Tracker.Stale(t, s, f) {
        SweepMarksNothing(w.(current := w.current[..i] + w.current[i + 1..]), i, latest, s, f);
      } else {
        var v := if !t.isActivated && Ripe(t, s, f) then Activated(w, i, s, f) else w;
        ActivatingMarksNothing(w, i, s, f);
        SweepMarksNothing(v, i + 1, Published(latest, v.current[i], f), s, f);
      }
    } else {
      SweepEnds(w, latest, s, f);
    }
  }

  lemma ActivatingMarksNothing(w: World, i: nat, s: Settings, f: Frame)
    requires i < |w.current| && NoneErasable(w.current, |w.current|)
    ensures var c := Activated(w, i, s, f).current; NoneErasable(c, |c|)
  {
    hide GetLatentId, NextId;
    ReclaimingShape(w.current, w.current[i], f.geo, |w.current|, s.latentDistance, 0);
  }

  lemma FrameMarksNothing(st: Stage, s: Settings, frame: Frame)
    ensures var c := United(st, s, frame).world.current; NoneErasable(c, |c|)
  {
    hide Touched, Dropped, Kept, Newcomers, Sweep;
    var f := Effective(st, frame);
    var w0 := st.world.(current := Touched(st.world.current, f));
    var w1 := Dropped(w0, |w0.current|, s, f);
    var w2 := w1.(current := Kept(w1.current + Newcomers(f, st.nextKey, |f.unseen|)));
    KeptShape(w1.current + Newcomers(f, st.nextKey, |f.unseen|));
    SweepMarksNothing(w2, 0, [], s, f);
  }

  lemma FrameKeepsTidy(st: Stage, s: Settings, frame: Frame)
    requires Tidy(st)
    ensures Tidy(United(st, s, frame)) && United(st, s, frame).nextKey >= st.nextKey
  {
    hide Profiles, Fates, Probations, Newcomers, Touched, Dropped, Kept, Sweep, CleanedUp;
    hide NoneErasable, DistinctKeys, KeysWithin;
    var f := Effective(st, frame);
    FrameMarksNothing(st, s, frame);
    LivesAreIndependent(st, s, frame);
    FatesKeepKeys(Profiles(st.world.current), s, f, 0, st.nextKey);
    NewcomersHaveKeys(f, st.nextKey);
    ProbationsKeepKeys(Profiles(Newcomers(f, st.nextKey, |f.unseen|)), s, f, st.nextKey, st.nextKey + |f.unseen|);
    KeysJoin(Fates(Profiles(st.world.current), s, f), Probations(Profiles(Newcomers(f, st.nextKey, |f.unseen|)), s, f),
             st.nextKey, st.nextKey + |f.unseen|);
    if st.isStarted == 0 {
      NothingToTrack(st, s, frame);
    }
  }

  lemma EmptyIsTidy(st: Stage)
    requires st.world.current == []
    ensures Tidy(st)
  {
  }

  /** Over any run, frames before the first start and unsafe starts included, tracked objects keep different
      identities. */
  lemma {:induction false} RunKeepsTidy(st: Stage, s: Settings, events: seq<Event>)
    requires Tidy(st)
    ensures Tidy(Run(st, s, events)) && Run(st, s, events).nextKey >= st.nextKey
  {
    hide Tidy, United;
    if events != [] {
      var before := Run(st, s, events[..|events| - 1]);
      RunKeepsTidy(st, s, events[..|events| - 1]);
      match events[|events| - 1]
      case Start => StartKeepsTidy(before);
      case Stop => StopKeepsTidy(before);
      case Clear => EmptyIsTidy(Cleared(before));
      case ResetAll => EmptyIsTidy(Reset(before));
      case Unite(frame) => FrameKeepsTidy(before, s, frame);
    }
  }

  lemma StartKeepsTidy(st: Stage)
    requires Tidy(st)
    ensures Tidy(Started(st))
  {
  }

  /** Stopping leaves nothing tracked. */
  lemma StopKeepsTidy(st: Stage)
    requires Tidy(st)
    ensures Tidy(Stopped(st)) && Stopped(st).world.current == [] && Stopped(st).isStarted == 0
  {
    EmptyIsTidy(Stopped(st));
  }

  // ---- where a tracked object comes from ----

  /** An object that is tracked after a frame was tracked before, and its fate led there, or it is new. */
  lemma FrameMembers(st: Stage, s: Settings, frame: Frame, q: Profile)
    requires Tidy(st)
    ensures var f := Effective(st, frame);
      q in Profiles(United(st, s, frame).world.current) <==>
        (exists p :: p in Profiles(st.world.current) && Fate(p, s, f) == Some(q)) ||
        (exists p :: p in Profiles(Newcomers(f, st.nextKey, |f.unseen|)) && Probation(p, s, f) == Some(q))
  {
    hide Fate, Probation, Profiles, United, Newcomers, Effective, Fates, Probations;
    var f := Effective(st, frame);
    var ps, ns := Profiles(st.world.current), Profiles(Newcomers(f, st.nextKey, |f.unseen|));
    LivesAreIndependent(st, s, frame);
    FatesMembers(ps, s, f, q);
    ProbationsMembers(ns, s, f, q);
    assert q in Fates(ps, s, f) + Probations(ns, s, f) <==> q in Fates(ps, s, f) || q in Probations(ns, s, f);
  }

  lemma SameKeyIsSame(st: Stage, p: Profile, q: Profile)
    requires Tidy(st) && p in Profiles(st.world.current) && q in Profiles(st.world.current) && p.key == q.key
    ensures p == q
  {
    hide Profiles;
  }

  lemma KeysAreOld(st: Stage)
    requires Tidy(st)
    ensures forall p :: p in Profiles(st.world.current) ==> p.key < st.nextKey
  {
    hide Profiles;
  }

  // ---- activation ----

  predicate Fresh(p: Profile, s: Settings, f: Frame) {
    Since(f.now, p.lastTime) as real <= s.minActiveTime * s.minActiveFraction
  }

  /** In frame f an object became active as it is stored afterwards. */
  predicate BecomesActive(p: Profile, s: Settings, f: Frame) {
    p.isActivated && p.touched && p.lastTime == f.now && Since(f.now, p.firstTime) as real > s.minActiveTime &&
      Fresh(p, s, f)
  }

  ghost function TrackedAfter(st: Stage, s: Settings, events: seq<Event>, k: nat): seq<Profile>
    requires k <= |events|
  {
    Profiles(Run(st, s, events[..k]).world.current)
  }

  ghost function FrameOf(st: Stage, s: Settings, events: seq<Event>, a: nat): Frame
    requires a < |events| && events[a].Unite?
  {
    Effective(Run(st, s, events[..a]), events[a].frame)
  }

  /** Event a of a run is the frame in which object q became active: before it the object was on probation or new,
      and in it the object was matched, fresh and more than the minimal time old. */
  ghost predicate ActivatedBy(st: Stage, s: Settings, events: seq<Event>, a: nat, q: Profile) {
    && a < |events| && events[a].Unite?
    && (forall p :: p in TrackedAfter(st, s, events, a) && p.key == q.key ==> !p.isActivated)
    && exists p :: p in TrackedAfter(st, s, events, a + 1) && p.key == q.key && p.firstTime == q.firstTime
         && BecomesActive(p, s, FrameOf(st, s, events, a))
  }

  /** In every frame up to event a the object, where it is tracked, was fresh, and on probation until the last of
      them. */
  ghost predicate FreshUntil(st: Stage, s: Settings, events: seq<Event>, a: nat, key: nat) {
    a < |events| &&
    forall b, p :: 0 <= b <= a && events[b].Unite? && p in TrackedAfter(st, s, events, b + 1) && p.key == key ==>
      Fresh(p, s, FrameOf(st, s, events, b)) && (b < a ==> !p.isActivated)
  }

  /** What a frame makes of one object: its identity stays, and if it becomes active it does so for good reason. */
  lemma FateIsLawful(p: Profile, s: Settings, f: Frame)
    requires Fate(p, s, f).Some?
    ensures var q := Fate(p, s, f).value;
      && q.key == p.key && q.firstTime == p.firstTime
      && (p.isActivated ==> q.isActivated)
      && (!p.isActivated && q.isActivated ==> BecomesActive(q, s, f))
      && (!q.isActivated ==> Fresh(q, s, f))
  {
  }

  lemma ProbationIsLawful(p: Profile, s: Settings, f: Frame)
    requires !p.isActivated && p.touched && p.lastTime == f.now && Probation(p, s, f).Some?
    ensures var q := Probation(p, s, f).value;
      && q.key == p.key && q.firstTime == p.firstTime
      && (q.isActivated ==> BecomesActive(q, s, f))
      && (!q.isActivated ==> Fresh(q, s, f))
  {
  }

  /** What is tracked after a frame is on probation and fresh, or became active in it, or was active before. */
  lemma FrameIsLawful(st: Stage, s: Settings, frame: Frame, q: Profile)
    requires Tidy(st) && q in Profiles(United(st, s, frame).world.current)
    ensures var f, ps := Effective(st, frame), Profiles(st.world.current);
      || (!q.isActivated && Fresh(q, s, f) && forall p :: p in ps && p.key == q.key ==> !p.isActivated)
      || (BecomesActive(q, s, f) && forall p :: p in ps && p.key == q.key ==> !p.isActivated)
      || (q.isActivated && exists p :: p in ps && p.key == q.key && p.firstTime == q.firstTime && p.isActivated)
  {
    hide Tidy, Fate, Probation, United, BecomesActive, Newcomers, Fresh, Effective;
    var f, ps := Effective(st, frame), Profiles(st.world.current);
    FrameMembers(st, s, frame, q);
    if p :| p in ps && Fate(p, s, f) == Some(q) {
      FateIsLawful(p, s, f);
      forall p' | p' in ps && p'.key == q.key ensures p' == p {
        SameKeyIsSame(st, p, p');
      }
    } else {
      var p :| p in Profiles(Newcomers(f, st.nextKey, |f.unseen|)) && Probation(p, s, f) == Some(q);
      NewcomersAreNew(f, st.nextKey, p);
      ProbationIsLawful(p, s, f);
      KeysAreOld(st);
    }
  }

  lemma RunUnfolds(st: Stage, s: Settings, events: seq<Event>, k: nat)
    requires k < |events|
    ensures Run(st, s, events[..k + 1]) == After(Run(st, s, events[..k]), s, events[k])
  {
    var front := events[..k + 1];
    assert front[..|front| - 1] == events[..k];
  }

  /** The event leaves what is tracked as it was, or it is a frame, or it empties the stage. */
  lemma OtherEvents(st: Stage, s: Settings, e: Event)
    requires Tidy(st) && !e.Unite?
    ensures var c := After(st, s, e).world.current; c == [] || c == st.world.current
  {
  }

  /** Once active, an object is never again tracked as anything else. */
  lemma {:induction false} ActiveForever(st: Stage, s: Settings, events: seq<Event>, b: nat, c: nat, p: Profile,
                                         r: Profile)
    requires Tidy(st) && b <= c <= |events|
    requires p in TrackedAfter(st, s, events, b) && p.isActivated && r in TrackedAfter(st, s, events, c) &&
      r.key == p.key
    ensures r.isActivated
    decreases c
  {
    hide Tidy, Fate, Probation, United, BecomesActive, Newcomers, Fresh, Effective, Profiles;
    RunKeepsTidy(st, s, events[..b]);
    if b == c {
      SameKeyIsSame(Run(st, s, events[..b]), p, r);
    } else {
      var before, e := Run(st, s, events[..c - 1]), events[c - 1];
      RunUnfolds(st, s, events, c - 1);
      RunKeepsTidy(st, s, events[..c - 1]);
      if e.Unite? {
        RunGrows(st, s, events, b, c - 1);
        KeysAreOld(Run(st, s, events[..b]));
        var q := TrackedBefore(before, s, e.frame, r);
        FateKeepsKey(q, s, Effective(before, e.frame));
        ActiveForever(st, s, events, b, c - 1, p, q);
        FateIsLawful(q, s, Effective(before, e.frame));
      } else {
        OtherEvents(before, s, e);
        NothingIsTracked();
        ActiveForever(st, s, events, b, c - 1, p, r);
      }
    }
  }

  /** An object whose identity was given out earlier has lived through the frame. */
  lemma TrackedBefore(st: Stage, s: Settings, frame: Frame, r: Profile) returns (q: Profile)
    requires Tidy(st) && r in Profiles(United(st, s, frame).world.current) && r.key < st.nextKey
    ensures q in Profiles(st.world.current) && Fate(q, s, Effective(st, frame)) == Some(r)
  {
    hide Tidy, Fate, Probation, United, Newcomers, Effective;
    var f := Effective(st, frame);
    FrameMembers(st, s, frame, r);
    if !exists p :: p in Profiles(st.world.current) && Fate(p, s, f) == Some(r) {
      var p :| p in Profiles(Newcomers(f, st.nextKey, |f.unseen|)) && Probation(p, s, f) == Some(r);
      NewcomersAreNew(f, st.nextKey, p);
      FateKeepsKey(p, s, f);
    }
    q :| q in Profiles(st.world.current) && Fate(q, s, f) == Some(r);
  }

  lemma {:induction false} RunGrows(st: Stage, s: Settings, events: seq<Event>, b: nat, c: nat)
    requires Tidy(st) && b <= c <= |events|
    ensures Run(st, s, events[..b]).nextKey <= Run(st, s, events[..c]).nextKey
    decreases c
  {
    hide Tidy, United;
    if b < c {
      RunGrows(st, s, events, b, c - 1);
      RunUnfolds(st, s, events, c - 1);
      var before := Run(st, s, events[..c - 1]);
      RunKeepsTidy(st, s, events[..c - 1]);
      if events[c - 1].Unite? {
        FrameKeepsTidy(before, s, events[c - 1].frame);
      }
    }
  }

  lemma NothingIsTracked()
    ensures Profiles([]) == []
  {
  }

  /** Over any run from an empty stage, frames before the first start included: whatever is tracked as active, and so
      whatever is published, became active in a frame before which it was on probation or new, in which it was matched
      and more than the minimal time old, and up to which it was fresh in every frame. */
  lemma ActiveWasActivated(st: Stage, s: Settings, events: seq<Event>, q: Profile)
    requires st.world.current == []
    requires q in Profiles(Run(st, s, events).world.current) && q.isActivated
    ensures exists a: nat :: ActivatedBy(st, s, events, a, q) && FreshUntil(st, s, events, a, q.key)
  {
    hide Run, Profiles, ActivatedBy, FreshUntil, Tidy;
    EmptyIsTidy(st);
    assert events[..|events|] == events;
    var a := Activation(st, s, events, |events|, q);
    FreshUntilActive(st, s, events, a, q);
  }

  lemma {:induction false} Activation(st: Stage, s: Settings, events: seq<Event>, k: nat, q: Profile) returns (a: nat)
    requires Tidy(st) && st.world.current == [] && k <= |events|
    requires q in TrackedAfter(st, s, events, k) && q.isActivated
    ensures ActivatedBy(st, s, events, a, q)
    decreases k
  {
    hide Tidy, Fate, Probation, United, BecomesActive, Newcomers, Fresh, Effective, Profiles;
    NothingIsTracked();
    NoEventsYet(st, s, events);
    var before, e := Run(st, s, events[..k - 1]), events[k - 1];
    RunUnfolds(st, s, events, k - 1);
    RunKeepsTidy(st, s, events[..k - 1]);
    if e.Unite? {
      FrameIsLawful(before, s, e.frame, q);
      var ps := Profiles(before.world.current);
      if p :| p in ps && p.key == q.key && p.firstTime == q.firstTime && p.isActivated {
        a := Activation(st, s, events, k - 1, p);
      } else {
        a := k - 1;
      }
    } else {
      OtherEvents(before, s, e);
      a := Activation(st, s, events, k - 1, q);
    }
  }

  lemma NoEventsYet(st: Stage, s: Settings, events: seq<Event>)
    ensures TrackedAfter(st, s, events, 0) == Profiles(st.world.current)
  {
    assert events[..0] == [];
  }

  lemma FreshUntilActive(st: Stage, s: Settings, events: seq<Event>, a: nat, q: Profile)
    requires Tidy(st) && ActivatedBy(st, s, events, a, q)
    ensures FreshUntil(st, s, events, a, q.key)
  {
    hide Tidy, United, BecomesActive, Fresh, Effective, Profiles;
    forall b, p | 0 <= b <= a && events[b].Unite? && p in TrackedAfter(st, s, events, b + 1) && p.key == q.key
      ensures Fresh(p, s, FrameOf(st, s, events, b)) && (b < a ==> !p.isActivated)
    {
      FreshAt(st, s, events, a, q, b, p);
    }
  }

  lemma FreshAt(st: Stage, s: Settings, events: seq<Event>, a: nat, q: Profile, b: nat, p: Profile)
    requires Tidy(st) && ActivatedBy(st, s, events, a, q) && b <= a && events[b].Unite?
    requires p in TrackedAfter(st, s, events, b + 1) && p.key == q.key
    ensures Fresh(p, s, FrameOf(st, s, events, b)) && (b < a ==> !p.isActivated)
  {
    hide Tidy, United, Effective, Profiles, Fresh;
    RunUnfolds(st, s, events, b);
    RunKeepsTidy(st, s, events[..b]);
    FrameIsLawful(Run(st, s, events[..b]), s, events[b].frame, p);
    StillOnProbation(st, s, events, a, q, b);
    if b == a {
      var r :| r in TrackedAfter(st, s, events, a + 1) && r.key == q.key &&
        BecomesActive(r, s, FrameOf(st, s, events, a));
      RunKeepsTidy(st, s, events[..a + 1]);
      SameKeyIsSame(Run(st, s, events[..a + 1]), p, r);
    } else {
      StillOnProbation(st, s, events, a, q, b + 1);
    }
  }

  /** Up to the event in which it becomes active an object is tracked, if at all, on probation. */
  lemma StillOnProbation(st: Stage, s: Settings, events: seq<Event>, a: nat, q: Profile, b: nat)
    requires Tidy(st) && ActivatedBy(st, s, events, a, q) && b <= a
    ensures forall p :: p in TrackedAfter(st, s, events, b) && p.key == q.key ==> !p.isActivated
  {
    hide Tidy, United, Effective, Profiles, Fresh, BecomesActive;
    var before := Run(st, s, events[..a]);
    var r :| r in TrackedAfter(st, s, events, a + 1) && r.key == q.key;
    RunUnfolds(st, s, events, a);
    RunKeepsTidy(st, s, events[..a]);
    RunKeepsTidy(st, s, events[..b]);
    RunGrows(st, s, events, b, a);
    forall p | p in TrackedAfter(st, s, events, b) && p.key == q.key ensures !p.isActivated {
      KeysAreOld(Run(st, s, events[..b]));
      var kept := TrackedBefore(before, s, events[a].frame, r);
      FateKeepsKey(kept, s, Effective(before, events[a].frame));
      if p.isActivated {
        ActiveForever(st, s, events, b, a, p, kept);
      }
    }
  }

  /** After every frame of any run, whatever is still on probation is fresh. */
  lemma ProbationIsFresh(st: Stage, s: Settings, events: seq<Event>, frame: Frame, q: Profile)
    requires st.world.current == []
    requires q in Profiles(United(Run(st, s, events), s, frame).world.current) && !q.isActivated
    ensures Since(frame.now, q.lastTime) as real <= s.minActiveTime * s.minActiveFraction
  {
    hide Tidy, United, Profiles, Run;
    EmptyIsTidy(st);
    RunKeepsTidy(st, s, events);
    FrameIsLawful(Run(st, s, events), s, frame, q);
  }

  /** Whatever happens next to an active object: it stays active, unless the stage is emptied, or a frame comes in which
      it is not matched and has not been for the keep time. */
  lemma ActiveStays(st: Stage, s: Settings, events: seq<Event>, e: Event, p: Profile)
    requires st.world.current == []
    requires p in Profiles(Run(st, s, events).world.current) && p.isActivated
    ensures var before := Run(st, s, events); var after := Profiles(After(before, s, e).world.current);
      || (exists q :: q in after && q.key == p.key && q.firstTime == p.firstTime && q.isActivated)
      || (e.Stop? && before.isStarted != 0) || e.Clear? || e.ResetAll?
      || (e.Unite? && Effective(before, e.frame).seen(p.key).None? &&
          Since(e.frame.now, p.lastTime) as real >= s.keepTime)
  {
    hide Tidy, Probation, United, BecomesActive, Newcomers, Fresh;
    EmptyIsTidy(st);
    var before := Run(st, s, events);
    RunKeepsTidy(st, s, events);
    if e.Unite? {
      var f := Effective(before, e.frame);
      var q := Fate(p, s, f);
      LossIsOverdue(p, s, f);
      if q.Some? {
        FateIsLawful(p, s, f);
        FrameMembers(before, s, e.frame, q.value);
      }
    } else {
      assert e.Start? || (e.Stop? && before.isStarted == 0) ==> p in Profiles(After(before, s, e).world.current);
    }
  }

  lemma LossIsOverdue(p: Profile, s: Settings, f: Frame)
    requires p.isActivated
    ensures Fate(p, s, f).None? <==> f.seen(p.key).None? && Since(f.now, p.lastTime) as real >= s.keepTime
  {
  }

  // ---- what is shown, and calls besides frames ----

  /** What a frame publishes are the active objects that are not in an occluded region. */
  lemma {:induction false} PublishedAre(ps: seq<Profile>, f: Frame, key: nat)
    ensures key in PublishedKeys(ps, f) <==>
      exists i :: 0 <= i < |ps| && ps[i].isActivated && !f.geo.occluded(ps[i].key) && ps[i].key == key
  {
    if ps != [] {
      var front := ps[..|ps| - 1];
      PublishedAre(front, f, key);
      assert forall i :: 0 <= i < |front| ==> front[i] == ps[i];
    }
  }

  /** Observers are shown exactly what is published: over any run an object has an entry of its own in what they are
      handed iff it is among the latest. */
  lemma ShownArePublished(st: Stage, s: Settings, frame: Frame, i: nat)
    requires Tidy(st)
    requires var r := United(st, s, frame); i < |r.world.current|
    ensures var r := United(st, s, frame);
      Shown(r.world.current[i], Effective(st, frame)) <==> r.world.current[i].key in r.latest
  {
    hide United, Tidy, PublishedKeys;
    PublishedIsActive(st, s, frame);
    FrameKeepsTidy(st, s, frame);
    var r, f := United(st, s, frame), Effective(st, frame);
    var ps := Profiles(r.world.current);
    PublishedAre(ps, f, r.world.current[i].key);
    KeysDiffer(r);
    assert ps[i] == ProfileOf(r.world.current[i]);
  }

  lemma KeysDiffer(st: Stage)
    requires Tidy(st)
    ensures DistinctKeys(Profiles(st.world.current))
  {
  }

  /** Clearing, stopping and resetting leave nothing tracked and keep the ids and the clock; only a reset also
      forgets what was published, and only stopping ends the session. Starting changes nothing that is tracked. */
  lemma OtherCalls(st: Stage)
    ensures Cleared(st) == st.(world := World([], st.world.ids))
    ensures Reset(st) == st.(world := World([], st.world.ids), latest := [])
    ensures st.isStarted != 0 ==> Stopped(st) == st.(world := World([], st.world.ids), isStarted := 0)
    ensures st.isStarted == 0 ==> Stopped(st) == st
    ensures st.isStarted == 1 ==> Started(st) == st
    ensures st.isStarted != 1 ==> Started(st) == st.(isStarted := 1, world := World(st.world.current, Ids(0, 0)))
  {
  }
}
