/** What becomes of the id of a dropped object: a neighbour holds it, from where a new object takes it over, until it
    has been latent for too long. */
module TrackerLending {
  import opened Common
  import opened Tracker
  import opened TrackerHosts
  import opened TrackerIds

  // ---- the list of latent ids ----

  /** A new id is entered with its time, one that is there already stays as it was; nothing else changes. */
  lemma {:induction false} PutAdds(l: seq<LatentId>, id: nat, timestamp: nat, e: LatentId)
    ensures e in Put(l, id, timestamp) <==> e in l || (!Holds(l, id) && e == LatentId(id, timestamp))
  {
    hide KeyLess;
    if l != [] {
      PutAdds(l[1..], id, timestamp, e);
      assert l == [l[0]] + l[1..];
    }
  }

  lemma {:induction false} HoldsMeans(l: seq<LatentId>, id: nat)
    ensures Holds(l, id) <==> exists e :: e in l && e.id == id
  {
    if l != [] {
      HoldsMeans(l[1..], id);
      assert l == [l[0]] + l[1..];
    }
  }

  lemma {:induction false} RemoveTakes(l: seq<LatentId>, id: nat, e: LatentId)
    ensures e in Remove(l, id) <==> e in l && e.id != id
  {
    if l != [] {
      RemoveTakes(l[1..], id, e);
      assert l == [l[0]] + l[1..];
    }
  }

  ghost predicate Timed(l: seq<LatentId>) {
    forall k :: 0 <= k < |l| ==> l[k].timestamp > 0
  }

  /** The first of those that have been latent longest. */
  ghost predicate IsOldest(l: seq<LatentId>, k: nat) {
    && k < |l| && (forall i :: 0 <= i < |l| ==> l[k].timestamp <= l[i].timestamp)
    && (forall i :: 0 <= i < k ==> l[k].timestamp < l[i].timestamp)
  }

  lemma {:induction false} OldestSoFar(l: seq<LatentId>, best: LatentId) returns (k: nat)
    requires Timed(l) && best.timestamp > 0
    ensures IsOldest([best] + l, k) && Oldest(l, Some(best)) == Some(([best] + l)[k])
  {
    if l == [] {
      k := 0;
    } else {
      var next := if l[0].timestamp < best.timestamp then l[0] else best;
      var j := OldestSoFar(l[1..], next);
      var all, rest := [best] + l, [next] + l[1..];
      k := if next == best && j == 0 then 0 else j + 1;
      assert all[k] == rest[j] && all[0] == best && all[1] == l[0];
      forall i | 0 <= i < |all|
        ensures all[k].timestamp <= all[i].timestamp && (i < k ==> all[k].timestamp < all[i].timestamp)
      {
        assert rest[j].timestamp <= rest[0].timestamp && (0 < j ==> rest[j].timestamp < rest[0].timestamp);
        if i >= 2 {
          assert all[i] == rest[i - 1] && rest[j].timestamp <= rest[i - 1].timestamp;
        }
      }
    }
  }

  /** The id that has been latent longest is asked for; among several the first in the order of the list. */
  lemma GetIsOldest(l: seq<LatentId>)
    requires Timed(l)
    ensures Get(l).Some? <==> l != []
    ensures l != [] ==> exists k: nat :: IsOldest(l, k) && Get(l) == Some(l[k].id)
  {
    if l != [] {
      var k := OldestSoFar(l[1..], l[0]);
      assert [l[0]] + l[1..] == l;
    }
  }

  lemma {:induction false} OldestFrom(l: seq<LatentId>, best: Option<LatentId>, other: Option<LatentId>)
    requires l != []
    requires best.None? || best.value.timestamp == 0
    requires other.None? || other.value.timestamp == 0
    ensures Oldest(l, best) == Oldest(l, other)
  {
  }

  lemma {:induction false} OldestOfBoth(a: seq<LatentId>, b: seq<LatentId>, best: Option<LatentId>)
    ensures Oldest(a + b, best) == Oldest(b, Oldest(a, best))
  {
    if a == [] {
      assert a + b == b;
    } else {
      OldestOfBoth(a[1..], b, Older(best, a[0]));
      assert (a + b)[1..] == a[1..] + b;
    }
  }

  /** An id without a time hides all those before it: it is not asked for itself, and those behind it start afresh. */
  lemma UntimedHides(a: seq<LatentId>, e: LatentId, b: seq<LatentId>)
    requires e.timestamp == 0
    ensures Get(a + [e] + b) == Get(b)
  {
    OldestOfBoth(a + [e], b, None);
    OldestOfBoth(a, [e], None);
    var o := Oldest(a, None);
    assert Oldest([e], o) == Older(o, e);
    if b != [] {
      OldestFrom(b, Older(o, e), None);
    }
  }

  // ---- forgetting ----

  /** Growing older moves every time on, and nothing else. */
  lemma {:induction false} AgedAt(l: seq<LatentId>, time: nat, k: nat)
    requires k < |l|
    ensures |Aged(l, time)| == |l|
    ensures l[k].timestamp + time < U64 ==> Aged(l, time)[k] == LatentId(l[k].id, l[k].timestamp + time)
  {
    AgedIsSized(l, time);
    if k > 0 {
      AgedAt(l[1..], time, k - 1);
    }
  }

  lemma {:induction false} AgedIsSized(l: seq<LatentId>, time: nat)
    ensures |Aged(l, time)| == |l|
  {
    if l != [] {
      AgedIsSized(l[1..], time);
    }
  }

  /** An id is forgotten iff it has been latent for longer than the life time. */
  lemma {:induction false} ForgottenIff(l: seq<LatentId>, lifeTime: nat, now: nat, e: LatentId)
    requires e.timestamp + lifeTime < U64
    ensures e in Unexpired(l, lifeTime, now) <==> e in l && now - e.timestamp <= lifeTime
  {
    if l != [] {
      ForgottenIff(l[1..], lifeTime, now, e);
      assert l == [l[0]] + l[1..];
    }
  }

  /** While its host may be two, an id does not grow older: its time moves on as the clock does. */
  lemma AgeStandsStill(l: seq<LatentId>, lifeTime: nat, before: nat, now: nat, k: nat)
    requires k < |l| && l[k].timestamp <= before <= now && now + lifeTime < U64
    ensures var e := LatentId(l[k].id, l[k].timestamp + (now - before));
      && e in Aged(l, now - before)
      && (e in Unexpired(Aged(l, now - before), lifeTime, now) <==> before - l[k].timestamp <= lifeTime)
  {
    AgedAt(l, now - before, k);
    ForgottenIff(Aged(l, now - before), lifeTime, now, LatentId(l[k].id, l[k].timestamp + (now - before)));
  }

  // ---- lending ----

  /** The id under which object i is lent: its own, or the next one. */
  function LentId(w: World, i: nat): nat
    requires i < |w.current|
  {
    if w.current[i].id != 0 then w.current[i].id else NextId(w.ids).counter
  }

  /** An id is lent iff a neighbour is within the limit: the chosen one then holds it since the time of the frame, and
      besides that only an object without an id has got one. */
  lemma LendingIs(w: World, i: nat, s: Settings, f: Frame)
    requires i < |w.current|
    ensures var hosts, r := Neighbours(w.current, i, f.geo), PutLatentId(w, i, s, f);
      if s.latentDistance > 0.0 && SomeWithin(hosts, s.latentDistance) then
        exists h: nat :: h < |w.current| && LowestChosen(hosts, s.latentDistance, h) && LentTo(w, i, f.now, h, r)
      else r == w
  {
    hide FindHost, Put, NextId, SomeWithin, LowestChosen, Neighbours;
    if s.latentDistance > 0.0 {
      HostIsChosen(w.current, i, f.geo, s.latentDistance);
      HolderOf(w, i, s, f);
    }
  }

  ghost predicate LentTo(w: World, i: nat, now: nat, h: nat, r: World)
    requires i < |w.current| && h < |w.current|
  {
    && h != i && |r.current| == |w.current|
    && r.current[i] == w.current[i].(id := LentId(w, i))
    && (forall k :: 0 <= k < |w.current| && k != i && k != h ==> r.current[k] == w.current[k])
    && r.current[h].(latentIds := []) == w.current[h].(latentIds := [])
    && (forall e :: e in r.current[h].latentIds <==>
          (e in w.current[h].latentIds ||
           (!Holds(w.current[h].latentIds, LentId(w, i)) && e == LatentId(LentId(w, i), now))))
    && r.ids == if w.current[i].id != 0 then w.ids else NextId(w.ids)
  }

  lemma HolderOf(w: World, i: nat, s: Settings, f: Frame)
    requires i < |w.current| && s.latentDistance > 0.0
    ensures var host := FindHost(w.current, i, f.geo, |w.current|, s.latentDistance, None);
      if host.Some? then LentTo(w, i, f.now, host.value, PutLatentId(w, i, s, f)) else PutLatentId(w, i, s, f) == w
  {
    hide FindHost, Put, NextId, Holds;
    var host := FindHost(w.current, i, f.geo, |w.current|, s.latentDistance, None);
    if host.Some? {
      var l, id := w.current[host.value].latentIds, LentId(w, i);
      forall e ensures e in Put(l, id, f.now) <==> e in l || (!Holds(l, id) && e == LatentId(id, f.now)) {
        PutAdds(l, id, f.now, e);
      }
    }
  }

  /** While every id is in use once, the id of a public object that is dropped stays in use, held by the chosen
      neighbour since the time of the frame, iff a neighbour is within the limit; otherwise it is lost. */
  lemma DroppedIdSurvives(w: World, i: nat, s: Settings, f: Frame)
    requires i < |w.current| && NoneErasable(w.current, |w.current|) && forall x: nat :: Count(w.current, x) <= 1
    requires w.current[i].isActivated && w.current[i].id != 0
    ensures var hosts, r := Neighbours(w.current, i, f.geo), PutLatentId(w, i, s, f);
      var q, x := r.current[i := r.current[i].(erasable := true)], w.current[i].id;
      if s.latentDistance > 0.0 && SomeWithin(hosts, s.latentDistance) then
        && Count(q, x) == Count(w.current, x) == 1
        && exists h: nat :: h < |q| && LowestChosen(hosts, s.latentDistance, h) && LatentId(x, f.now) in q[h].latentIds
      else Count(q, x) == 0
  {
    hide Count, PutLatentId, SomeWithin, LowestChosen, Neighbours, Holds;
    var hosts, r, x := Neighbours(w.current, i, f.geo), PutLatentId(w, i, s, f), w.current[i].id;
    var q := r.current[i := r.current[i].(erasable := true)];
    LendingIs(w, i, s, f);
    CountAt(w.current, i, x);
    if s.latentDistance > 0.0 && SomeWithin(hosts, s.latentDistance) {
      var h: nat :| h < |w.current| && LowestChosen(hosts, s.latentDistance, h) && LentTo(w, i, f.now, h, r);
      NotHeldElsewhere(w.current, i, h);
      assert LatentId(x, f.now) in q[h].latentIds;
      HeldOnce(q, h, x, f.now);
      LendingCountsAtMost(w, i, s, f, x);
    } else {
      CountUpdate(w.current, i, w.current[i].(erasable := true), x);
    }
  }

  /** An id in use at object i is not held by another one. */
  lemma NotHeldElsewhere(current: seq<Trackable>, i: nat, h: nat)
    requires i < |current| && h < |current| && i != h && NoneErasable(current, |current|)
    requires current[i].isActivated && Count(current, current[i].id) <= 1
    ensures !Holds(current[h].latentIds, current[i].id)
  {
    hide Count, Holds;
    HoldsIsCounted(current[h].latentIds, current[i].id);
    if LatentCount(current[h].latentIds, current[i].id) > 0 {
      TwoUsers(current, if i < h then i else h, if i < h then h else i, current[i].id);
    }
  }

  lemma HeldOnce(q: seq<Trackable>, h: nat, x: nat, now: nat)
    requires h < |q| && !q[h].erasable && LatentId(x, now) in q[h].latentIds
    ensures Count(q, x) >= 1
  {
    hide Count, Holds;
    HoldsMeans(q[h].latentIds, x);
    HoldsIsCounted(q[h].latentIds, x);
    CountAt(q, h, x);
  }

  lemma LendingCountsAtMost(w: World, i: nat, s: Settings, f: Frame, x: nat)
    requires i < |w.current| && NoneErasable(w.current, |w.current|) && w.current[i].id != 0 && w.current[i].isActivated
    requires x == w.current[i].id && forall y: nat :: Count(w.current, y) <= 1
    ensures var r := PutLatentId(w, i, s, f).current; Count(r[i := r[i].(erasable := true)], x) <= 1
  {
    hide Count, FindHost, Put, Holds;
    CountAt(w.current, i, x);
    var host := FindHost(w.current, i, f.geo, |w.current|, s.latentDistance, None);
    var gone := w.current[i].(erasable := true);
    CountUpdate(w.current, i, gone, x);
    if s.latentDistance > 0.0 && host.Some? {
      var h := host.value;
      var u := w.current[h].(latentIds := Put(w.current[h].latentIds, x, f.now));
      CountUpdate(w.current[i := gone], h, u, x);
      PutCounts(w.current[h].latentIds, x, f.now, x);
      assert w.current[i := w.current[i]] == w.current;
      assert w.current[i := gone][h := u] == w.current[h := u][i := gone];
    }
  }

  // ---- taking an id over ----

  /** An object that comes of age takes over the oldest id of the host that reclaiming ends with, and no new one is
      issued; only if no host within the limit offers one it gets the next. */
  lemma ActivatedIdIs(w: World, i: nat, s: Settings, f: Frame)
    requires i < |w.current| && forall k :: 0 <= k < |w.current| ==> !Holds(w.current[k].latentIds, 0)
    ensures var r, hosts := Activated(w, i, s, f), Offered(w.current, w.current[i], f.geo);
      && r.current[i].isActivated
      && if !f.geo.portal(w.current[i].key) && s.latentDistance > 0.0 && SomeWithin(hosts, s.latentDistance) then
           r.ids == w.ids && exists h: nat ::
             h < |w.current| && LowestChosen(hosts, s.latentDistance, h) && r.current[i].id == OldestId(w.current[h])
         else r.ids == NextId(w.ids) && r.current[i].id == r.ids.counter
  {
    hide GetLatentId, Get, NextId, SomeWithin, LowestChosen, Chosen, Robbed, Holds, OldestId;
    var hosts := Offered(w.current, w.current[i], f.geo);
    ReclaimingTakesFrom(w.current, w.current[i], f.geo, s.latentDistance);
    if SomeWithin(hosts, s.latentDistance) {
      var r := GetLatentId(w.current, w.current[i], f.geo, |w.current|, s.latentDistance, 0);
      var h: nat :| h < |w.current| && LowestChosen(hosts, s.latentDistance, h) && r.1 == OldestId(w.current[h]);
      ChosenOffers(w.current, w.current[i], f.geo, s.latentDistance);
      OfferedIsNotZero(w.current[h]);
    }
  }

  lemma OfferedIsNotZero(t: Trackable)
    requires Offers(t) && !Holds(t.latentIds, 0)
    ensures OldestId(t) != 0
  {
    hide Oldest, Holds;
    OldestIsHeld(t.latentIds, None);
  }

  // ---- one frame ----

  /** Object a was not matched for too long and is dropped, while b beside it was matched; c, not public yet, is beside
      b and has come of age. */
  ghost predicate Meeting(a: Trackable, b: Trackable, c: Trackable, s: Settings, f: Frame) {
    && a.isActivated && b.isActivated && !c.isActivated && a.id != 0 && b.latentIds == []
    && !a.erasable && !b.erasable && !c.erasable
    && f.seen(a.key).None? && f.seen(b.key).Some? && f.seen(c.key).Some? && f.unseen == [] && 0 < f.now < U64
    && Since(f.now, a.lastTime) as real >= s.keepTime && Since(f.now, c.firstTime) as real > s.minActiveTime
    && s.minActiveTime * s.minActiveFraction >= 0.0
    && s.latentDistance > 0.0 && !f.geo.portal(a.key) && !f.geo.portal(c.key)
    && f.geo.distance(b.key, a.key) < s.latentDistance + f.geo.reach(a.key, b.key)
    && f.geo.distance(b.key, c.key) < s.latentDistance + f.geo.reach(c.key, b.key)
  }

  lemma OnlyHost(a: Trackable, b: Trackable, c: Trackable, geo: Geometry, limit: real)
    requires b.isActivated && !c.isActivated && geo.distance(b.key, a.key) < limit + geo.reach(a.key, b.key)
    ensures FindHost([a, b, c], 0, geo, 3, limit, None) == Some(1)
  {
    var d := geo.distance(b.key, a.key);
    assert FindHost([a, b, c], 0, geo, 1, d, Some(1)) == FindHost([a, b, c], 0, geo, 0, d, Some(1));
    assert FindHost([a, b, c], 0, geo, 2, limit, None) == FindHost([a, b, c], 0, geo, 1, d, Some(1));
    assert FindHost([a, b, c], 0, geo, 3, limit, None) == FindHost([a, b, c], 0, geo, 2, limit, None);
  }

  lemma FirstIsDropped(a: Trackable, b: Trackable, c: Trackable, ids: Ids, s: Settings, f: Frame)
    requires Meeting(a, b, c, s, f) && !a.touched && b.touched && c.touched
    ensures Dropped(World([a, b, c], ids), 3, s, f) ==
      World([a.(erasable := true), b.(latentIds := [LatentId(a.id, f.now)]), c], ids)
  {
    hide FindHost;
    var w := World([a, b, c], ids);
    OnlyHost(a, b, c, f.geo, s.latentDistance);
    var host := b.(latentIds := [LatentId(a.id, f.now)]);
    assert Put([], a.id, f.now) == [LatentId(a.id, f.now)];
    assert w.current[0 := a] == [a, b, c] && [a, b, c][1 := host] == [a, host, c];
    assert PutLatentId(w, 0, s, f) == World([a, host, c], ids);
    assert [a, host, c][0 := a.(erasable := true)] == [a.(erasable := true), host, c];
    assert Dropped(w, 1, s, f) == Dropped(World([a.(erasable := true), host, c], ids), 0, s, f);
    assert Dropped(w, 2, s, f) == Dropped(w, 1, s, f);
    assert Dropped(w, 3, s, f) == Dropped(w, 2, s, f);
  }

  lemma SecondReclaims(host: Trackable, c: Trackable, x: nat, now: nat, geo: Geometry, limit: real)
    requires host.isActivated && !c.isActivated && host.latentIds == [LatentId(x, now)] && now > 0
    requires geo.distance(host.key, c.key) < limit + geo.reach(c.key, host.key)
    ensures GetLatentId([host, c], c, geo, 2, limit, 0) == ([host.(latentIds := []), c], x)
  {
    OneIsTaken([LatentId(x, now)], x, now);
    hide Get, Remove;
    assert [host, c][0 := host.(latentIds := [])] == [host.(latentIds := []), c];
    var d := geo.distance(host.key, c.key);
    assert GetLatentId([host.(latentIds := []), c], c, geo, 0, d, x) == ([host.(latentIds := []), c], x);
    assert GetLatentId([host, c], c, geo, 1, limit, 0) ==
      GetLatentId([host.(latentIds := []), c], c, geo, 0, d, x);
    assert GetLatentId([host, c], c, geo, 2, limit, 0) == GetLatentId([host, c], c, geo, 1, limit, 0);
  }

  lemma OneIsTaken(l: seq<LatentId>, x: nat, now: nat)
    requires l == [LatentId(x, now)] && now > 0
    ensures Get(l) == Some(x) && Remove(l, x) == []
  {
    assert l[1..] == [] && l[0].id == x;
    assert Oldest(l, None) == Oldest(l[1..], Older(None, l[0]));
    assert Remove(l, x) == [] + Remove(l[1..], x);
  }

  lemma SecondActivates(host: Trackable, c: Trackable, x: nat, ids: Ids, s: Settings, f: Frame)
    requires host.isActivated && !c.isActivated && host.latentIds == [LatentId(x, f.now)] && f.now > 0 && x != 0
    requires f.geo.distance(host.key, c.key) < s.latentDistance + f.geo.reach(c.key, host.key)
    requires !f.geo.portal(c.key) && s.latentDistance > 0.0 && Ripe(c, s, f) && !Tracker.Stale(c, s, f)
    ensures Sweep(World([host, c], ids), 0, [], s, f).world ==
      World([host.(latentIds := []), c.(id := x, isActivated := true)], ids)
  {
    hide GetLatentId, Sweep, Ripe, Tracker.Stale;
    var w, named := World([host, c], ids), c.(id := x, isActivated := true);
    SecondReclaims(host, c, x, f.now, f.geo, s.latentDistance);
    var v := World([host.(latentIds := []), named], ids);
    assert [host.(latentIds := []), c][1 := named] == v.current;
    assert Activated(w, 1, s, f) == v;
    var latest := Published([], host, f);
    SweepUnfolds(w, 0, [], s, f);
    SweepUnfolds(w, 1, latest, s, f);
    SweepEnds(v, Published(latest, named, f), s, f);
  }

  /** In one frame the id of an object that is dropped passes by way of its neighbour to the new object beside that:
      what is tracked afterwards are the neighbour, hosting nothing, and the new object, public under exactly that id;
      no new id is issued. */
  lemma IdIsHandedOver(st: Stage, a: Trackable, b: Trackable, c: Trackable, s: Settings, f: Frame)
    requires st.isStarted != 0 && st.world.current == [a, b, c] && Meeting(a, b, c, s, f) && c.latentIds == []
    ensures var r := United(st, s, f).world;
      && r.ids == st.world.ids && |r.current| == 2
      && r.current[0].key == b.key && r.current[0].id == b.id && r.current[1].key == c.key && r.current[1].id == a.id
      && forall k :: 0 <= k < 2 ==> r.current[k].isActivated && r.current[k].latentIds == []
  {
    hide Dropped, Sweep, Kept, Ripe, Tracker.Stale, Unexpired, Aged;
    var t := Touched([a, b, c], f);
    assert t == [t[0], t[1], t[2]];
    FirstIsDropped(t[0], t[1], t[2], st.world.ids, s, f);
    var host := t[1].(latentIds := [LatentId(a.id, f.now)]);
    var d := [t[0].(erasable := true), host, t[2]];
    assert Newcomers(f, st.nextKey, |f.unseen|) == [] && d + [] == d;
    LastTwoAreKept(d);
    NothingExpires(s, f);
    CameOfAgeFresh(t[2], s, f);
    SecondActivates(host, t[2], a.id, st.world.ids, s, f);
  }

  lemma LastTwoAreKept(d: seq<Trackable>)
    requires |d| == 3 && d[0].erasable && !d[1].erasable && !d[2].erasable
    ensures Kept(d) == [d[1], d[2]]
  {
    assert d[..2][..1] == [d[0]] && d[..1][..0] == [];
    assert Kept(d[..1]) == [] + [];
    assert Kept(d[..2]) == Kept(d[..1]) + [d[1]];
    assert Kept(d) == Kept(d[..2]) + [d[2]];
  }

  lemma NothingExpires(s: Settings, f: Frame)
    ensures Unexpired([], s.latentLifeTime, f.now) == [] && forall time :: Aged([], time) == []
  {
  }

  lemma CameOfAgeFresh(c: Trackable, s: Settings, f: Frame)
    requires c.touched && c.lastTime == f.now && Since(f.now, c.firstTime) as real > s.minActiveTime
    requires s.minActiveTime * s.minActiveFraction >= 0.0
    ensures Ripe(c, s, f) && !Tracker.Stale(c, s, f)
  {
    assert Since(f.now, f.now) == 0;
  }

  // ---- a host that may be two ----

  lemma OneIsSwept(b: Trackable, ids: Ids, s: Settings, f: Frame)
    requires b.isActivated
    ensures Sweep(World([b], ids), 0, [], s, f).world == World([b], ids)
  {
    hide Sweep, Activated, Ripe, Tracker.Stale;
    SweepUnfolds(World([b], ids), 0, [], s, f);
    SweepEnds(World([b], ids), Published([], b, f), s, f);
  }

  /** The ids that a host holds after a frame in which it was matched: those that have been latent no longer than the
      life time, now, or if the host may be two as of the frame before, their times moved on. */
  lemma HostsAfterAFrame(st: Stage, b: Trackable, s: Settings, f: Frame, e: LatentId)
    requires st.isStarted != 0 && st.world.current == [b] && b.isActivated && !b.erasable
    requires f.seen(b.key).Some? && f.unseen == []
    requires st.timestamp <= f.now && f.now + s.latentLifeTime < U64
    requires forall k :: 0 <= k < |b.latentIds| ==> b.latentIds[k].timestamp <= st.timestamp
    ensures var r := United(st, s, f).world.current; |r| == 1 && r[0].key == b.key
    ensures var prob, later := f.seen(b.key).value, LatentId(e.id, e.timestamp + (f.now - st.timestamp));
      && (prob <= 0.85 && e in b.latentIds ==>
            (e in United(st, s, f).world.current[0].latentIds <==> f.now - e.timestamp <= s.latentLifeTime))
      && (prob > 0.85 && e in b.latentIds ==>
            (later in United(st, s, f).world.current[0].latentIds <==> st.timestamp - e.timestamp <= s.latentLifeTime))
  {
    hide Unexpired, Aged;
    HostAfterAFrame(st, b, s, f);
    if k :| 0 <= k < |b.latentIds| && b.latentIds[k] == e {
      AgeStandsStill(b.latentIds, s.latentLifeTime, st.timestamp, f.now, k);
      ForgottenIff(b.latentIds, s.latentLifeTime, f.now, e);
    }
  }

  lemma HostAfterAFrame(st: Stage, b: Trackable, s: Settings, f: Frame)
    requires st.isStarted != 0 && st.world.current == [b] && b.isActivated && !b.erasable
    requires f.seen(b.key).Some? && f.unseen == []
    requires st.timestamp <= f.now < U64
    ensures var r := United(st, s, f).world.current;
      && |r| == 1 && r[0].key == b.key
      && r[0].latentIds ==
         Unexpired(if f.seen(b.key).value > 0.85 then Aged(b.latentIds, f.now - st.timestamp) else b.latentIds,
                   s.latentLifeTime, f.now)
  {
    hide Sweep, Unexpired, Aged, PutLatentId;
    var t := Touched([b], f);
    assert t == [t[0]];
    var w := World(t, st.world.ids);
    assert Dropped(w, 1, s, f) == Dropped(w, 0, s, f) == w;
    assert Newcomers(f, st.nextKey, |f.unseen|) == [] && t + [] == t;
    OneIsKept(t[0]);
    OneIsSwept(t[0], st.world.ids, s, f);
    assert Since(f.now, st.timestamp) == f.now - st.timestamp;
  }

  lemma OneIsKept(t: Trackable)
    requires !t.erasable
    ensures Kept([t]) == [t]
  {
    assert [t][..0] == [];
    assert Kept([t]) == Kept([]) + [t];
  }

  // ---- the order of the list ----

  function Value(s: string): nat {
    if s == [] then 0
    else
      var last := s[|s| - 1];
      10 * Value(s[..|s| - 1]) + if '0' <= last <= '9' then (last - '0') as nat else 0
  }

  /** The decimal representation of a number is read back as that number. */
  lemma {:induction false} DecimalIsRead(n: nat)
    ensures Value(Decimal(n)) == n && Decimal(n) != [] && (n > 0 ==> Decimal(n)[0] != '0')
  {
    if n < 10 {
      assert Decimal(n)[..0] == [];
    } else {
      DecimalIsRead(n / 10);
      DecimalIsRead(n % 10);
      var last := Decimal(n % 10);
      assert last == [(n % 10) as char + '0'];
      assert Decimal(n)[..|Decimal(n)| - 1] == Decimal(n / 10);
    }
  }

  /** The strings agree in the first k characters, and then the first one ends or has the lower character. */
  ghost predicate LessAt(a: string, b: string, k: nat) {
    k <= |a| && k < |b| && a[..k] == b[..k] && (k == |a| || a[k] < b[k])
  }

  /** Strings are ordered as in a dictionary: where they first differ, or one ends. */
  lemma {:induction false} DictionaryOrder(a: string, b: string)
    ensures StringLess(a, b) <==> exists k: nat :: LessAt(a, b, k)
  {
    if StringLess(a, b) {
      if a == [] || a[0] < b[0] {
        assert LessAt(a, b, 0);
      } else {
        DictionaryOrder(a[1..], b[1..]);
        var k: nat :| LessAt(a[1..], b[1..], k);
        assert a[..k + 1] == [a[0]] + a[1..][..k] && b[..k + 1] == [b[0]] + b[1..][..k];
        assert LessAt(a, b, k + 1);
      }
    } else if k: nat :| LessAt(a, b, k) {
      if k > 0 {
        assert a[0] == a[..k][0] == b[..k][0] == b[0];
        assert a[1..][..k - 1] == a[..k][1..] == b[..k][1..] == b[1..][..k - 1];
        assert LessAt(a[1..], b[1..], k - 1);
        DictionaryOrder(a[1..], b[1..]);
      }
    }
  }

  lemma {:induction false} OneOrTheOther(a: string, b: string)
    ensures a == b || StringLess(a, b) || StringLess(b, a)
  {
    if a != [] && b != [] && a[0] == b[0] {
      OneOrTheOther(a[1..], b[1..]);
      assert a == [a[0]] + a[1..] && b == [b[0]] + b[1..];
    }
  }

  lemma {:induction false} OrderIsTransitive(a: string, b: string, c: string)
    requires StringLess(a, b) && StringLess(b, c)
    ensures StringLess(a, c)
  {
    if a != [] && a[0] == b[0] == c[0] {
      OrderIsTransitive(a[1..], b[1..], c[1..]);
    }
  }

  ghost predicate InOrder(l: seq<LatentId>) {
    forall i, j :: 0 <= i < j < |l| ==> KeyLess(l[i].id, l[j].id)
  }

  lemma KeysAreOrdered(a: nat, b: nat, c: nat)
    ensures a == b || KeyLess(a, b) || KeyLess(b, a)
    ensures KeyLess(a, b) && KeyLess(b, c) ==> KeyLess(a, c)
  {
    DecimalIsRead(a);
    DecimalIsRead(b);
    OneOrTheOther(Decimal(a), Decimal(b));
    if KeyLess(a, b) && KeyLess(b, c) {
      OrderIsTransitive(Decimal(a), Decimal(b), Decimal(c));
    }
  }

  /** Latent ids stay in the order of their decimal representations. */
  lemma {:induction false} PutKeepsOrder(l: seq<LatentId>, id: nat, timestamp: nat)
    requires InOrder(l)
    ensures InOrder(Put(l, id, timestamp))
  {
    hide KeyLess;
    if l != [] && l[0].id != id {
      var head, rest := l[0], l[1..];
      if KeyLess(id, head.id) && !Holds(l, id) {
        forall j | 0 <= j < |l| ensures KeyLess(id, l[j].id) {
          KeysAreOrdered(id, head.id, l[j].id);
        }
      } else {
        PutKeepsOrder(rest, id, timestamp);
        var more := Put(rest, id, timestamp);
        forall j | 0 <= j < |more| ensures KeyLess(head.id, more[j].id) {
          PutAdds(rest, id, timestamp, more[j]);
          KeysAreOrdered(head.id, id, id);
          assert more[j] in more;
          if more[j] in rest {
            var i :| 0 <= i < |rest| && rest[i] == more[j];
            assert rest[i] == l[i + 1];
          }
        }
      }
    }
  }

  lemma {:induction false} RemoveKeepsOrder(l: seq<LatentId>, id: nat)
    requires InOrder(l)
    ensures InOrder(Remove(l, id))
  {
    hide KeyLess;
    if l != [] {
      RemoveKeepsOrder(l[1..], id);
      var rest := Remove(l[1..], id);
      forall j | 0 <= j < |rest| ensures KeyLess(l[0].id, rest[j].id) {
        RemoveTakes(l[1..], id, rest[j]);
        var i :| 0 <= i < |l[1..]| && l[1..][i] == rest[j];
        assert l[1..][i] == l[i + 1];
      }
    }
  }
}
