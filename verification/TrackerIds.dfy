/** No id is ever public twice: over every run of a session, the ids of activated objects and the latent ids
    held by objects that are still tracked are pairwise distinct.  */
module TrackerIds {
  import opened Common
  import opened Tracker

  /** How often id x is in use: by activated objects and as a latent id, among objects not marked for removal. */
  ghost function Uses(t: Trackable, x: nat): nat {
    if t.erasable then 0 else (if t.isActivated && t.id == x then 1 else 0) + LatentCount(t.latentIds, x)
  }

  ghost function Count(current: seq<Trackable>, x: nat): nat {
    if current == [] then 0 else Count(current[..|current| - 1], x) + Uses(current[|current| - 1], x)
  }

  lemma {:induction false} CountConcat(a: seq<Trackable>, b: seq<Trackable>, x: nat)
    ensures Count(a + b, x) == Count(a, x) + Count(b, x)
  {
    if b == [] {
      assert a + b == a;
    } else {
      assert (a + b)[..|a + b| - 1] == a + b[..|b| - 1];
      CountConcat(a, b[..|b| - 1], x);
    }
  }

  lemma CountAt(current: seq<Trackable>, i: nat, x: nat)
    requires i < |current|
    ensures Count(current, x) == Count(current[..i], x) + Uses(current[i], x) + Count(current[i + 1..], x)
  {
    assert current == current[..i] + ([current[i]] + current[i + 1..]);
    CountConcat(current[..i], [current[i]] + current[i + 1..], x);
    CountConcat([current[i]], current[i + 1..], x);
    assert [current[i]][..0] == [];
    assert Count([current[i]], x) == Count([], x) + Uses(current[i], x);
  }

  lemma CountUpdate(current: seq<Trackable>, i: nat, t: Trackable, x: nat)
    requires i < |current|
    ensures Count(current[i := t], x) == Count(current, x) - Uses(current[i], x) + Uses(t, x)
  {
    CountAt(current, i, x);
    CountAt(current[i := t], i, x);
    assert current[i := t][..i] == current[..i] && current[i := t][i + 1..] == current[i + 1..];
  }

  /** Ids in use are in use once, and were issued. */
  ghost predicate Distinct(w: World) {
    forall x: nat :: Count(w.current, x) <= 1 && (Count(w.current, x) > 0 ==> 1 <= x <= w.ids.issued)
  }

  /** As long as fewer than 2^31 ids were issued the 32-bit counter has not wrapped. */
  ghost predicate Counting(ids: Ids) {
    ids.issued < 0x8000_0000 ==> ids.counter == ids.issued
  }

  /** An object that is not public has no id and hosts none. */
  ghost predicate Private(t: Trackable) {
    !t.erasable && !t.isActivated ==> t.id == 0 && t.latentIds == []
  }

  ghost predicate AllPrivate(current: seq<Trackable>) {
    forall i :: 0 <= i < |current| ==> Private(current[i])
  }

  /** What holds throughout, as long as not too many ids were issued. */
  ghost predicate WorldOk(w: World) {
    Counting(w.ids) && AllPrivate(w.current) && (w.ids.issued < 0x8000_0000 ==> Distinct(w))
  }

  // ---- lending and reclaiming ----

  lemma NextIdCounts(ids: Ids)
    requires Counting(ids)
    ensures Counting(NextId(ids)) && NextId(ids).issued == ids.issued + 1 && NextId(ids).counter > 0
    ensures NextId(ids).issued < 0x8000_0000 ==> NextId(ids).counter == ids.issued + 1
  {
  }

  function Issuing(ids: Ids, n: nat): Ids {
    if n == 0 then ids else NextId(Issuing(ids, n - 1))
  }

  /** The ids go round from 1 to 2^32 - 1. */
  lemma {:induction false} IdsGoRound(ids: Ids, n: nat)
    requires 0 < ids.counter < U32
    ensures Issuing(ids, n).counter == 1 + (ids.counter - 1 + n) % (U32 - 1)
    ensures Issuing(ids, n).issued == ids.issued + n
  {
    hide NextId;
    if n > 0 {
      IdsGoRound(ids, n - 1);
      NextCounter(Issuing(ids, n - 1));
      NextInRound(ids.counter - 1 + n - 1);
    } else {
      SmallInRound(ids.counter - 1);
    }
  }

  lemma NextCounter(ids: Ids)
    requires 0 < ids.counter < U32
    ensures NextId(ids) == Ids(if ids.counter == U32 - 1 then 1 else ids.counter + 1, ids.issued + 1)
  {
  }

  lemma SmallInRound(a: nat)
    requires a < U32 - 1
    ensures a % (U32 - 1) == a
  {
  }

  lemma NextInRound(a: nat)
    ensures (a + 1) % (U32 - 1) == if a % (U32 - 1) == U32 - 2 then 0 else a % (U32 - 1) + 1
  {
    var q, m := a / (U32 - 1), U32 - 1;
    assert a == q * m + a % m;
    if a % m == m - 1 {
      assert a + 1 == (q + 1) * m;
    } else {
      assert a + 1 == q * m + (a % m + 1);
    }
  }

  /** Two ids issued one after the other are the same iff the number of ids issued between them goes round. */
  lemma IdsRepeatIff(ids: Ids, n: nat)
    requires 0 < ids.counter < U32
    ensures Issuing(ids, n).counter == ids.counter <==> n % (U32 - 1) == 0
  {
    IdsGoRound(ids, n);
    SumInRound(ids.counter - 1, n);
  }

  lemma SumInRound(a: nat, n: nat)
    requires a < U32 - 1
    ensures (a + n) % (U32 - 1) == a <==> n % (U32 - 1) == 0
  {
  }

  /** Lending the id of object i and marking the object: the id moves to the host, or is lost with the object;
      a new id is issued for an object that has none. */
  lemma LendingKeepsWorld(w: World, i: nat, s: Settings, f: Frame)
    requires WorldOk(w) && i < |w.current| && !w.current[i].erasable
    ensures var p := PutLatentId(w, i, s, f); WorldOk(p.(current := p.current[i := p.current[i].(erasable := true)]))
    ensures var p := PutLatentId(w, i, s, f); p.ids.issued >= w.ids.issued
    ensures var p := PutLatentId(w, i, s, f);
      forall k :: 0 <= k < |w.current| ==> p.current[k].erasable == w.current[k].erasable
  {
    hide Count, FindHost, Put, NextId;
    var p := PutLatentId(w, i, s, f);
    var q := p.(current := p.current[i := p.current[i].(erasable := true)]);
    NextIdCounts(w.ids);
    forall x: nat | p.ids.issued < 0x8000_0000
      ensures Count(q.current, x) <= 1 && (Count(q.current, x) > 0 ==> 1 <= x <= q.ids.issued)
    {
      LendingCounts(w, i, s, f, x);
    }
  }

  lemma LendingCounts(w: World, i: nat, s: Settings, f: Frame, x: nat)
    requires WorldOk(w) && i < |w.current| && !w.current[i].erasable
    requires PutLatentId(w, i, s, f).ids.issued < 0x8000_0000
    ensures var p := PutLatentId(w, i, s, f); var q := p.current[i := p.current[i].(erasable := true)];
      Count(q, x) <= 1 && (Count(q, x) > 0 ==> 1 <= x <= p.ids.issued)
  {
    hide Count, FindHost, Put;
    var p := PutLatentId(w, i, s, f);
    var q := p.current[i := p.current[i].(erasable := true)];
    NextIdCounts(w.ids);
    assert w.ids.issued <= p.ids.issued;
    assert Distinct(w);
    var host := FindHost(w.current, i, f.geo, |w.current|, s.latentDistance, None);
    if s.latentDistance <= 0.0 || host.None? {
      CountUpdate(w.current, i, w.current[i].(erasable := true), x);
    } else {
      var h := host.value;
      var self := p.current[i];
      assert h != i;
      CountUpdate(w.current, i, self, x);
      CountUpdate(w.current[i := self], h, p.current[h], x);
      CountUpdate(p.current, i, self.(erasable := true), x);
      PutCounts(w.current[h].latentIds, self.id, f.now, x);
      assert Uses(self, x) >= Uses(w.current[i], x);
    }
  }

  ghost predicate NoneErasable(current: seq<Trackable>, i: nat)
    requires i <= |current|
  {
    forall k :: 0 <= k < i ==> !current[k].erasable
  }

  lemma {:induction false} DroppedKeepsWorld(w: World, i: nat, s: Settings, f: Frame)
    requires WorldOk(w) && i <= |w.current| && NoneErasable(w.current, i)
    ensures WorldOk(Dropped(w, i, s, f)) && Dropped(w, i, s, f).ids.issued >= w.ids.issued
    decreases i
  {
    hide WorldOk, PutLatentId;
    if i > 0 {
      if Overdue(w.current[i - 1], s, f) {
        LendingKeepsWorld(w, i - 1, s, f);
        MarkingKeepsWorld(w, i - 1);
        var p := if f.geo.portal(w.current[i - 1].key) then w else PutLatentId(w, i - 1, s, f);
        DroppedKeepsWorld(p.(current := p.current[i - 1 := p.current[i - 1].(erasable := true)]), i - 1, s, f);
      } else {
        DroppedKeepsWorld(w, i - 1, s, f);
      }
    }
  }

  lemma MarkingKeepsWorld(w: World, i: nat)
    requires WorldOk(w) && i < |w.current|
    ensures WorldOk(w.(current := w.current[i := w.current[i].(erasable := true)]))
  {
    hide Count;
    var v := w.(current := w.current[i := w.current[i].(erasable := true)]);
    forall x: nat | w.ids.issued < 0x8000_0000
      ensures Count(v.current, x) <= 1 && (Count(v.current, x) > 0 ==> 1 <= x <= v.ids.issued)
    {
      CountUpdate(w.current, i, v.current[i], x);
      assert Distinct(w);
    }
  }

  lemma CountOne(t: Trackable, x: nat)
    ensures Count([t], x) == Uses(t, x)
  {
    assert [t][..0] == [];
    assert Count([t], x) == Count([], x) + Uses(t, x);
  }

  lemma {:induction false} KeptCounts(current: seq<Trackable>, x: nat)
    ensures Count(Kept(current), x) == Count(current, x)
  {
    if current != [] {
      var front, last := current[..|current| - 1], current[|current| - 1];
      KeptCounts(front, x);
      CountOne(last, x);
      if last.erasable {
        assert Kept(front) + [] == Kept(front);
      } else {
        CountConcat(Kept(front), [last], x);
      }
    }
  }

  lemma {:induction false} KeptShape(current: seq<Trackable>)
    ensures NoneErasable(Kept(current), |Kept(current)|)
    ensures forall t :: t in Kept(current) <==> t in current && !t.erasable
  {
    if current != [] {
      var front, last := current[..|current| - 1], current[|current| - 1];
      assert current == front + [last];
      KeptShape(front);
    }
  }

  lemma {:induction false} NewcomersCount(f: Frame, nextKey: nat, k: nat, x: nat)
    requires k <= |f.unseen|
    ensures Count(Newcomers(f, nextKey, k), x) == 0 && AllPrivate(Newcomers(f, nextKey, k))
  {
    if k > 0 {
      NewcomersCount(f, nextKey, k - 1, x);
      var rest, last := Newcomers(f, nextKey, k - 1), Newcomer(nextKey + k - 1, f.now, f.unseen[k - 1]);
      assert (rest + [last])[..|rest|] == rest;
    }
  }

  /** Taking ids from their hosts: nothing is used more often than before, the id that is returned is free, and
      the object itself and everything that is not public stay as they were. */
  lemma {:induction false} ReclaimingCounts(current: seq<Trackable>, self: Trackable, geo: Geometry, j: nat,
                                            distance: real, id: nat, x: nat)
    requires j <= |current| && (id > 0 ==> Count(current, id) == 0)
    requires NoneErasable(current, |current|) && forall y: nat :: Count(current, y) <= 1
    ensures var r := GetLatentId(current, self, geo, j, distance, id);
      && Count(r.0, x) <= Count(current, x)
      && (r.1 > 0 ==> Count(r.0, r.1) == 0 && (r.1 == id || Count(current, r.1) > 0))
      && NoneErasable(r.0, |r.0|)
      && (forall k :: 0 <= k < |current| ==> r.0[k].(latentIds := []) == current[k].(latentIds := []))
      && (forall k :: 0 <= k < |current| && !current[k].isActivated ==> r.0[k] == current[k])
    decreases j
  {
    hide Count, Remove, Get;
    if j > 0 {
      var t := current[j - 1];
      if t.isActivated && Get(t.latentIds).Some? && IsCloser(geo, self, t, distance) {
        var lent := Get(t.latentIds).value;
        var next := current[j - 1 := t.(latentIds := Remove(t.latentIds, lent))];
        RobbingCounts(current, j - 1, lent);
        ReclaimingCounts(next, self, geo, j - 1, geo.distance(t.key, self.key), lent, x);
        var r := GetLatentId(next, self, geo, j - 1, geo.distance(t.key, self.key), lent);
        if r.1 > 0 && r.1 != lent {
          assert Count(next, r.1) > 0;
        }
      } else {
        ReclaimingCounts(current, self, geo, j - 1, distance, id, x);
      }
    }
  }

  /** Taking its oldest id from a host takes it out of use. */
  lemma RobbingCounts(current: seq<Trackable>, k: nat, lent: nat)
    requires k < |current| && !current[k].erasable && Get(current[k].latentIds) == Some(lent)
    requires forall y: nat :: Count(current, y) <= 1
    ensures var next := current[k := current[k].(latentIds := Remove(current[k].latentIds, lent))];
      && Count(next, lent) == 0 && Count(current, lent) > 0
      && forall y: nat :: Count(next, y) <= Count(current, y)
  {
    hide Count, Remove, Get;
    var t := current[k];
    var u := t.(latentIds := Remove(t.latentIds, lent));
    LentIsHeld(t.latentIds);
    CountAt(current, k, lent);
    forall y: nat
      ensures Count(current[k := u], y) == Count(current, y) - if y == lent then LatentCount(t.latentIds, lent) else 0
    {
      CountUpdate(current, k, u, y);
      RemoveCounts(t.latentIds, lent, y);
    }
  }

  lemma LentIsHeld(l: seq<LatentId>)
    requires Get(l).Some?
    ensures LatentCount(l, Get(l).value) > 0
  {
    OldestIsHeld(l, None);
    HoldsIsCounted(l, Get(l).value);
  }

  /** A newly public object carries a free id: a reclaimed one, or the next of the counter. */
  lemma ActivatingKeepsWorld(w: World, i: nat, s: Settings, f: Frame)
    requires WorldOk(w) && i < |w.current| && NoneErasable(w.current, |w.current|) && !w.current[i].isActivated
    ensures var r := Activated(w, i, s, f);
      WorldOk(r) && NoneErasable(r.current, |r.current|) && r.ids.issued >= w.ids.issued
  {
    hide Count, GetLatentId, NextId;
    var r := Activated(w, i, s, f);
    NextIdCounts(w.ids);
    assert WorldOk(w) && Private(w.current[i]);
    if r.ids.issued < 0x8000_0000 {
      forall x: nat
        ensures Count(r.current, x) <= 1 && (Count(r.current, x) > 0 ==> 1 <= x <= r.ids.issued)
      {
        ActivatingCounts(w, i, s, f, x);
      }
    }
    ActivatingShape(w, i, s, f);
  }

  lemma ActivatingShape(w: World, i: nat, s: Settings, f: Frame)
    requires WorldOk(w) && i < |w.current| && NoneErasable(w.current, |w.current|) && !w.current[i].isActivated
    ensures var r := Activated(w, i, s, f); AllPrivate(r.current) && NoneErasable(r.current, |r.current|)
    ensures var r := Activated(w, i, s, f); forall k :: 0 <= k < |w.current| && k != i ==>
      r.current[k].(latentIds := []) == w.current[k].(latentIds := []) &&
        (!w.current[k].isActivated ==> r.current[k] == w.current[k])
    ensures var r := Activated(w, i, s, f);
      r.current[i].isActivated &&
        r.current[i].(id := 0, latentIds := []) == w.current[i].(id := 0, latentIds := [], isActivated := true)
  {
    hide Count, NextId;
    ReclaimingShape(w.current, w.current[i], f.geo, |w.current|, s.latentDistance, 0);
  }

  lemma {:induction false} ReclaimingShape(current: seq<Trackable>, self: Trackable, geo: Geometry, j: nat,
                                           distance: real, id: nat)
    requires j <= |current|
    ensures var r := GetLatentId(current, self, geo, j, distance, id);
      && (forall k :: 0 <= k < |current| ==> r.0[k].(latentIds := []) == current[k].(latentIds := []))
      && (forall k :: 0 <= k < |current| && !current[k].isActivated ==> r.0[k] == current[k])
    decreases j
  {
    hide Remove, Get;
    if j > 0 {
      var t := current[j - 1];
      if t.isActivated && Get(t.latentIds).Some? && IsCloser(geo, self, t, distance) {
        var lent := Get(t.latentIds).value;
        ReclaimingShape(current[j - 1 := t.(latentIds := Remove(t.latentIds, lent))], self, geo, j - 1,
                        geo.distance(t.key, self.key), lent);
      } else {
        ReclaimingShape(current, self, geo, j - 1, distance, id);
      }
    }
  }

  lemma ActivatingCounts(w: World, i: nat, s: Settings, f: Frame, x: nat)
    requires WorldOk(w) && i < |w.current| && NoneErasable(w.current, |w.current|) && !w.current[i].isActivated
    requires Activated(w, i, s, f).ids.issued < 0x8000_0000
    ensures var r := Activated(w, i, s, f);
      Count(r.current, x) <= 1 && (Count(r.current, x) > 0 ==> 1 <= x <= r.ids.issued)
  {
    hide Count, GetLatentId;
    NextIdCounts(w.ids);
    var r := Activated(w, i, s, f);
    assert w.ids.issued <= r.ids.issued;
    assert Distinct(w) && Private(w.current[i]);
    var none := f.geo.portal(w.current[i].key) || s.latentDistance <= 0.0;
    var (current, lent) := if none then (w.current, 0)
      else GetLatentId(w.current, w.current[i], f.geo, |w.current|, s.latentDistance, 0);
    if !none {
      ReclaimingCounts(w.current, w.current[i], f.geo, |w.current|, s.latentDistance, 0, x);
    }
    assert current[i] == w.current[i];
    assert Count(w.current, r.ids.issued) <= 1;
    CountUpdate(current, i, r.current[i], x);
  }

  lemma ErasingKeepsWorld(w: World, i: nat)
    requires WorldOk(w) && i < |w.current| && NoneErasable(w.current, |w.current|)
    ensures var v := w.(current := w.current[..i] + w.current[i + 1..]);
      WorldOk(v) && NoneErasable(v.current, |v.current|)
  {
    hide Count;
    var v := w.(current := w.current[..i] + w.current[i + 1..]);
    forall x: nat | w.ids.issued < 0x8000_0000
      ensures Count(v.current, x) <= 1 && (Count(v.current, x) > 0 ==> 1 <= x <= v.ids.issued)
    {
      CountAt(w.current, i, x);
      CountConcat(w.current[..i], w.current[i + 1..], x);
      assert Distinct(w);
    }
  }

  lemma {:induction false} SweepKeepsWorld(w: World, i: nat, latest: seq<nat>, s: Settings, f: Frame)
    requires WorldOk(w) && i <= |w.current| && NoneErasable(w.current, |w.current|)
    ensures var r := Sweep(w, i, latest, s, f).world;
      WorldOk(r) && NoneErasable(r.current, |r.current|) && r.ids.issued >= w.ids.issued
    decreases |w.current| - i
  {
    hide WorldOk, Activated;
    if i < |w.current| {
      var t := w.current[i];
      if !t.isActivated && Tracker.Stale(t, s, f) {
        ErasingKeepsWorld(w, i);
        SweepKeepsWorld(w.(current := w.current[..i] + w.current[i + 1..]), i, latest, s, f);
      } else {
        var v := if !t.isActivated && Ripe(t, s, f) then Activated(w, i, s, f) else w;
        if !t.isActivated && Ripe(t, s, f) {
          ActivatingKeepsWorld(w, i, s, f);
        }
        var u := v.current[i];
        SweepKeepsWorld(v, i + 1, if u.isActivated && !f.geo.occluded(u.key) then latest + [u.key] else latest, s, f);
      }
    }
  }

  lemma {:induction false} PointwiseCount(a: seq<Trackable>, b: seq<Trackable>, x: nat)
    requires |a| == |b| && forall k :: 0 <= k < |a| ==> Uses(a[k], x) <= Uses(b[k], x)
    ensures Count(a, x) <= Count(b, x)
  {
    if a != [] {
      PointwiseCount(a[..|a| - 1], b[..|b| - 1], x);
    }
  }

  lemma CleaningKeepsWorld(w: World, s: Settings, f: Frame, timeDiff: nat)
    requires WorldOk(w) && NoneErasable(w.current, |w.current|)
    ensures WorldOk(w.(current := CleanedUp(w.current, s, f, timeDiff)))
    ensures NoneErasable(CleanedUp(w.current, s, f, timeDiff), |w.current|)
  {
    hide Count;
    var c := CleanedUp(w.current, s, f, timeDiff);
    forall x: nat | w.ids.issued < 0x8000_0000
      ensures Count(c, x) <= 1 && (Count(c, x) > 0 ==> 1 <= x <= w.ids.issued)
    {
      forall k | 0 <= k < |c| ensures Uses(c[k], x) <= Uses(w.current[k], x) {
        AgedCounts(w.current[k].latentIds, timeDiff, x);
        var l := w.current[k].latentIds;
        UnexpiredCounts(if w.current[k].splitProb > 0.85 then Aged(l, timeDiff) else l, s.latentLifeTime, f.now, x);
      }
      PointwiseCount(c, w.current, x);
      assert Distinct(w);
    }
  }

  lemma TouchingKeepsWorld(w: World, f: Frame)
    requires WorldOk(w) && NoneErasable(w.current, |w.current|)
    ensures WorldOk(w.(current := Touched(w.current, f))) && NoneErasable(Touched(w.current, f), |w.current|)
  {
    hide Count;
    var c := Touched(w.current, f);
    forall x: nat | w.ids.issued < 0x8000_0000
      ensures Count(c, x) <= 1 && (Count(c, x) > 0 ==> 1 <= x <= w.ids.issued)
    {
      PointwiseCount(c, w.current, x);
      assert Distinct(w);
    }
  }

  lemma JoiningKeepsWorld(w: World, f: Frame, nextKey: nat)
    requires WorldOk(w)
    ensures var c := Kept(w.current + Newcomers(f, nextKey, |f.unseen|));
      WorldOk(w.(current := c)) && NoneErasable(c, |c|)
  {
    hide Count, Kept, Newcomers;
    var n := Newcomers(f, nextKey, |f.unseen|);
    var c := Kept(w.current + n);
    KeptShape(w.current + n);
    NewcomersCount(f, nextKey, |f.unseen|, 0);
    assert AllPrivate(c) by {
      forall k | 0 <= k < |c| ensures Private(c[k]) {
        assert c[k] in w.current + n;
      }
    }
    forall x: nat | w.ids.issued < 0x8000_0000
      ensures Count(c, x) <= 1 && (Count(c, x) > 0 ==> 1 <= x <= w.ids.issued)
    {
      KeptCounts(w.current + n, x);
      CountConcat(w.current, n, x);
      NewcomersCount(f, nextKey, |f.unseen|, x);
      assert Distinct(w);
    }
  }

  // ---- sessions ----

  /** A stage between frames; a stopped stage tracks nothing. */
  ghost predicate StageOk(st: Stage) {
    && WorldOk(st.world) && NoneErasable(st.world.current, |st.world.current|)
    && (st.isStarted == 0 ==> st.world.current == [])
  }

  lemma FrameKeepsStage(st: Stage, s: Settings, frame: Frame)
    requires StageOk(st)
    ensures StageOk(United(st, s, frame)) && United(st, s, frame).world.ids.issued >= st.world.ids.issued
  {
    hide WorldOk, Touched, Dropped, Kept, Newcomers, Sweep, CleanedUp;
    var f := Effective(st, frame);
    TouchingKeepsWorld(st.world, f);
    var w0 := st.world.(current := Touched(st.world.current, f));
    DroppedKeepsWorld(w0, |w0.current|, s, f);
    var w1 := Dropped(w0, |w0.current|, s, f);
    JoiningKeepsWorld(w1, f, st.nextKey);
    var w2 := w1.(current := Kept(w1.current + Newcomers(f, st.nextKey, |f.unseen|)));
    SweepKeepsWorld(w2, 0, [], s, f);
    var r := Sweep(w2, 0, [], s, f);
    CleaningKeepsWorld(r.world, s, f, Since(f.now, st.timestamp));
    if st.isStarted == 0 {
      NothingToTrack(st, s, frame);
    }
  }

  lemma NothingToTrack(st: Stage, s: Settings, frame: Frame)
    requires st.isStarted == 0 && st.world.current == []
    ensures United(st, s, frame).world.current == []
  {
    var f := Effective(st, frame);
    assert Touched([], f) == [];
    var none: seq<Trackable> := [];
    assert Newcomers(f, st.nextKey, 0) == none && none + none == none;
  }

  datatype Event = Start | Stop | Clear | ResetAll | Unite(frame: Frame)

  function After(st: Stage, s: Settings, e: Event): Stage {
    match e
    case Start => Started(st)
    case Stop => Stopped(st)
    case Clear => Cleared(st)
    case ResetAll => Reset(st)
    case Unite(frame) => United(st, s, frame)
  }

  function Run(st: Stage, s: Settings, events: seq<Event>): Stage {
    if events == [] then st else After(Run(st, s, events[..|events| - 1]), s, events[|events| - 1])
  }

  lemma EmptyWorldIsOk(w: World)
    requires w.current == [] && Counting(w.ids)
    ensures WorldOk(w)
  {
  }

  /** The session is running already, or nothing that is tracked uses an id. */
  ghost predicate SafeToStart(st: Stage) {
    st.isStarted == 1 || forall x: nat :: Count(st.world.current, x) == 0
  }

  ghost predicate StartsSafely(st: Stage, s: Settings, events: seq<Event>) {
    events == [] ||
    (StartsSafely(st, s, events[..|events| - 1]) &&
     (events[|events| - 1].Start? ==> SafeToStart(Run(st, s, events[..|events| - 1]))))
  }

  lemma {:induction false} RunKeepsStage(st: Stage, s: Settings, events: seq<Event>)
    requires StageOk(st) && StartsSafely(st, s, events)
    ensures StageOk(Run(st, s, events))
  {
    hide WorldOk, SafeToStart;
    if events != [] {
      var before := Run(st, s, events[..|events| - 1]);
      RunKeepsStage(st, s, events[..|events| - 1]);
      match events[|events| - 1]
      case Start => StartKeepsStage(before);
      case Stop => EmptyingKeepsWorld(before.world);
      case Clear => EmptyingKeepsWorld(before.world);
      case ResetAll => EmptyingKeepsWorld(before.world);
      case Unite(frame) => FrameKeepsStage(before, s, frame);
    }
  }

  lemma EmptyingKeepsWorld(w: World)
    requires WorldOk(w)
    ensures WorldOk(w.(current := []))
  {
    EmptyWorldIsOk(w.(current := []));
  }

  lemma StartKeepsStage(st: Stage)
    requires StageOk(st) && SafeToStart(st)
    ensures StageOk(Started(st))
  {
    hide Count;
    if st.isStarted != 1 {
      assert Started(st).world == World(st.world.current, Ids(0, 0));
    }
  }

  /** The state of a new stage: not started, and merging nevertheless. */
  ghost predicate New(st: Stage) {
    st.world.current == [] && st.isStarted == -1
  }

  /** Once a stage was started, every later start is safe: the stage is running, or it was stopped and emptied. */
  lemma {:induction false} SessionsStartSafely(st: Stage, s: Settings, events: seq<Event>)
    requires StageOk(st) && 0 <= st.isStarted <= 1
    ensures StartsSafely(st, s, events) && 0 <= Run(st, s, events).isStarted <= 1
  {
    hide StageOk, SafeToStart, United;
    if events != [] {
      var front, e := events[..|events| - 1], events[|events| - 1];
      SessionsStartSafely(st, s, front);
      RunKeepsStage(st, s, front);
      StoppedIsSafe(Run(st, s, front));
      if e.Unite? {
        FrameKeepsSession(Run(st, s, front), s, e.frame);
        assert Run(st, s, events) == United(Run(st, s, front), s, e.frame);
      }
    }
  }

  lemma StoppedIsSafe(st: Stage)
    requires StageOk(st) && 0 <= st.isStarted <= 1
    ensures SafeToStart(st)
  {
  }

  lemma FrameKeepsSession(st: Stage, s: Settings, frame: Frame)
    ensures United(st, s, frame).isStarted == st.isStarted
  {
  }

  /** In every run, frames before the first start included: while no start was unsafe and fewer than 2^31 ids were
      issued, the ids of activated objects and the latent ids of tracked ones occur once each. */
  lemma IdsAreDistinct(st: Stage, s: Settings, events: seq<Event>, x: nat)
    requires New(st) && Counting(st.world.ids) && StartsSafely(st, s, events)
    ensures var r := Run(st, s, events).world;
      r.ids.issued < 0x8000_0000 ==> Count(r.current, x) <= 1
  {
    EmptyWorldIsOk(st.world);
    RunKeepsStage(st, s, events);
    assert WorldOk(Run(st, s, events).world);
  }

  lemma StartedIsOk(st: Stage)
    requires New(st)
    ensures StageOk(Started(st)) && Started(st).isStarted == 1
  {
    EmptyWorldIsOk(Started(st).world);
  }

  /** The same for a session: a new stage is started, and then come any frames, clears, resets, stops and restarts. */
  lemma SessionIdsAreDistinct(st: Stage, s: Settings, events: seq<Event>, x: nat)
    requires New(st)
    ensures var r := Run(Started(st), s, events).world;
      r.ids.issued < 0x8000_0000 ==> Count(r.current, x) <= 1
  {
    StartedIsOk(st);
    SessionsStartSafely(Started(st), s, events);
    RunKeepsStage(Started(st), s, events);
    assert WorldOk(Run(Started(st), s, events).world);
  }

  // ---- what observers see ----

  datatype Seen = Seen(owner: nat, latent: bool)

  function Emplace(m: map<nat, Seen>, id: nat, o: Seen): map<nat, Seen> {
    if id in m then m else m[id := o]
  }

  function EmplaceLatent(m: map<nat, Seen>, l: seq<LatentId>, k: nat, owner: nat): map<nat, Seen>
    requires k <= |l|
  {
    if k == 0 then m else Emplace(EmplaceLatent(m, l, k - 1, owner), l[k - 1].id, Seen(owner, true))
  }

  predicate Shown(t: Trackable, f: Frame) {
    t.isActivated && !f.geo.occluded(t.key)
  }

  /** The objects handed to the observers: shown objects under their id, and the latent ids they host. */
  function Observed(current: seq<Trackable>, i: nat, f: Frame): map<nat, Seen>
    requires i <= |current|
  {
    if i == 0 then map[]
    else
      var m, t := Observed(current, i - 1, f), current[i - 1];
      if Shown(t, f) then EmplaceLatent(Emplace(m, t.id, Seen(t.key, false)), t.latentIds, |t.latentIds|, t.key) else m
  }

  ghost function NumShown(current: seq<Trackable>, i: nat, f: Frame): nat
    requires i <= |current|
  {
    if i == 0 then 0
    else NumShown(current, i - 1, f) + if Shown(current[i - 1], f) then 1 + |current[i - 1].latentIds| else 0
  }

  ghost function PrefixCount(l: seq<LatentId>, k: nat, x: nat): nat
    requires k <= |l|
  {
    if k == 0 then 0 else PrefixCount(l, k - 1, x) + if l[k - 1].id == x then 1 else 0
  }

  lemma {:induction false} PrefixIsCount(l: seq<LatentId>, k: nat, x: nat)
    requires k <= |l|
    ensures PrefixCount(l, k, x) == LatentCount(l[..k], x) && PrefixCount(l, k, x) <= LatentCount(l, x)
    decreases k
  {
    if k > 0 {
      PrefixIsCount(l, k - 1, x);
      LatentConcat(l[..k - 1], [l[k - 1]], x);
      LatentConcat(l[..k], l[k..], x);
      assert l[..k] == l[..k - 1] + [l[k - 1]] && l == l[..k] + l[k..];
      assert [l[k - 1]][1..] == [];
    }
  }

  lemma {:induction false} LatentConcat(a: seq<LatentId>, b: seq<LatentId>, x: nat)
    ensures LatentCount(a + b, x) == LatentCount(a, x) + LatentCount(b, x)
  {
    if a == [] {
      assert a + b == b;
    } else {
      assert (a + b)[1..] == a[1..] + b;
      LatentConcat(a[1..], b, x);
    }
  }

  ghost predicate Maps(m: map<nat, Seen>, id: nat, o: Seen) {
    id in m && m[id] == o
  }

  ghost predicate Extends(r: map<nat, Seen>, m: map<nat, Seen>) {
    forall x: nat :: x in m ==> Maps(r, x, m[x])
  }

  /** The object and the ids it hosts are all entered, as its own. */
  ghost predicate Entered(m: map<nat, Seen>, t: Trackable) {
    Maps(m, t.id, Seen(t.key, false)) && forall j :: 0 <= j < |t.latentIds| ==>
      Maps(m, t.latentIds[j].id, Seen(t.key, true))
  }

  /** While no latent id is in the map already, each adds an entry. */
  lemma {:induction false} EmplaceLatentAdds(m: map<nat, Seen>, l: seq<LatentId>, k: nat, owner: nat)
    requires k <= |l|
    requires forall x: nat :: LatentCount(l, x) + (if x in m then 1 else 0) <= 1
    ensures var r := EmplaceLatent(m, l, k, owner);
      |r| == |m| + k && forall x: nat :: x in r <==> x in m || PrefixCount(l, k, x) > 0
    decreases k
  {
    if k > 0 {
      EmplaceLatentAdds(m, l, k - 1, owner);
      var id := l[k - 1].id;
      PrefixIsCount(l, k, id);
      assert PrefixCount(l, k, id) == PrefixCount(l, k - 1, id) + 1;
    }
  }

  /** No entry is ever refused: the map has exactly one for every shown object and one for every latent id it hosts. */
  lemma {:induction false} ObservedIsComplete(current: seq<Trackable>, i: nat, f: Frame)
    requires i <= |current| && NoneErasable(current, |current|)
    requires forall x: nat :: Count(current, x) <= 1
    ensures |Observed(current, i, f)| == NumShown(current, i, f)
    ensures forall x: nat :: x in Observed(current, i, f) ==> Count(current[..i], x) > 0
    decreases i
  {
    hide Count, Uses, Emplace, EmplaceLatent, Shown;
    if i > 0 {
      ObservedIsComplete(current, i - 1, f);
      var m, t := Observed(current, i - 1, f), current[i - 1];
      forall x: nat ensures Count(current[..i - 1], x) + Uses(t, x) == Count(current[..i], x) <= 1 {
        CountUpTo(current, i, x);
      }
      if Shown(t, f) {
        EmplacingOneObject(m, t, f);
      }
    }
  }

  lemma CountUpTo(current: seq<Trackable>, i: nat, x: nat)
    requires 0 < i <= |current|
    ensures Count(current[..i - 1], x) + Uses(current[i - 1], x) == Count(current[..i], x) <= Count(current, x)
  {
    hide Uses;
    assert current[..i][..i - 1] == current[..i - 1];
    CountConcat(current[..i], current[i..], x);
    assert current == current[..i] + current[i..];
  }

  /** A shown object whose ids are in use nowhere else adds an entry for each. */
  lemma EmplacingOneObject(m: map<nat, Seen>, t: Trackable, f: Frame)
    requires Shown(t, f) && !t.erasable && forall x: nat :: Uses(t, x) + (if x in m then 1 else 0) <= 1
    ensures var r := EmplaceLatent(Emplace(m, t.id, Seen(t.key, false)), t.latentIds, |t.latentIds|, t.key);
      |r| == |m| + 1 + |t.latentIds| && forall x: nat :: x in r ==> x in m || Uses(t, x) > 0
  {
    hide EmplaceLatent;
    assert Uses(t, t.id) > 0;
    var e := Emplace(m, t.id, Seen(t.key, false));
    forall x: nat ensures LatentCount(t.latentIds, x) + (if x in e then 1 else 0) <= 1 {
      assert Uses(t, x) + (if x in m then 1 else 0) <= 1;
    }
    EmplaceLatentAdds(e, t.latentIds, |t.latentIds|, t.key);
    forall x: nat ensures PrefixCount(t.latentIds, |t.latentIds|, x) > 0 ==> Uses(t, x) > 0 {
      PrefixIsCount(t.latentIds, |t.latentIds|, x);
      assert t.latentIds[..|t.latentIds|] == t.latentIds;
    }
  }

  lemma {:induction false} EmplacingExtends(m: map<nat, Seen>, l: seq<LatentId>, k: nat, owner: nat)
    requires k <= |l|
    ensures Extends(EmplaceLatent(m, l, k, owner), m)
    decreases k
  {
    if k > 0 {
      EmplacingExtends(m, l, k - 1, owner);
    }
  }

  lemma {:induction false} LatentIdsAreEntered(m: map<nat, Seen>, l: seq<LatentId>, k: nat, owner: nat, j: nat)
    requires j < k <= |l|
    requires forall x: nat :: LatentCount(l, x) + (if x in m then 1 else 0) <= 1
    ensures Maps(EmplaceLatent(m, l, k, owner), l[j].id, Seen(owner, true))
    decreases k
  {
    var id := l[k - 1].id;
    if j < k - 1 {
      LatentIdsAreEntered(m, l, k - 1, owner, j);
    } else {
      EmplaceLatentAdds(m, l, k - 1, owner);
      PrefixIsCount(l, k, id);
      assert PrefixCount(l, k, id) == PrefixCount(l, k - 1, id) + 1;
    }
  }

  lemma ExtendingKeepsEntries(r: map<nat, Seen>, m: map<nat, Seen>, t: Trackable)
    requires Extends(r, m) && Entered(m, t)
    ensures Entered(r, t)
  {
    forall j | 0 <= j < |t.latentIds| ensures Maps(r, t.latentIds[j].id, Seen(t.key, true)) {
      assert Maps(m, t.latentIds[j].id, Seen(t.key, true));
    }
  }

  /** Each entry belongs to the object or host it was made for. */
  lemma {:induction false} EntriesAreOwn(current: seq<Trackable>, i: nat, f: Frame, j: nat)
    requires j < i <= |current| && NoneErasable(current, |current|) && Shown(current[j], f)
    requires forall x: nat :: Count(current, x) <= 1
    ensures Entered(Observed(current, i, f), current[j])
    decreases i
  {
    hide Count, LatentCount, EmplaceLatent;
    var m, t := Observed(current, i - 1, f), current[i - 1];
    var e := Emplace(m, t.id, Seen(t.key, false));
    if j < i - 1 {
      EntriesAreOwn(current, i - 1, f, j);
      EmplacingExtends(e, t.latentIds, |t.latentIds|, t.key);
      forall x: nat | x in m ensures Maps(Observed(current, i, f), x, m[x]) {
        assert Shown(t, f) ==> Maps(e, x, m[x]) && Maps(EmplaceLatent(e, t.latentIds, |t.latentIds|, t.key), x, e[x]);
      }
      ExtendingKeepsEntries(Observed(current, i, f), m, current[j]);
    } else {
      FreshEntries(current, i, f);
      EmplacingExtends(e, t.latentIds, |t.latentIds|, t.key);
      assert Maps(e, t.id, Seen(t.key, false));
      forall n | 0 <= n < |t.latentIds| ensures Maps(Observed(current, i, f), t.latentIds[n].id, Seen(t.key, true)) {
        LatentIdsAreEntered(e, t.latentIds, |t.latentIds|, t.key, n);
      }
    }
  }

  lemma FreshEntries(current: seq<Trackable>, i: nat, f: Frame)
    requires 0 < i <= |current| && NoneErasable(current, |current|) && Shown(current[i - 1], f)
    requires forall x: nat :: Count(current, x) <= 1
    ensures var m, t := Observed(current, i - 1, f), current[i - 1];
      && t.id !in m
      && forall x: nat ::
           LatentCount(t.latentIds, x) + (if x in Emplace(m, t.id, Seen(t.key, false)) then 1 else 0) <= 1
  {
    hide Observed;
    ObservedIsComplete(current, i - 1, f);
    var m, t := Observed(current, i - 1, f), current[i - 1];
    forall x: nat ensures Count(current[..i - 1], x) + Uses(t, x) <= 1 {
      CountAt(current, i - 1, x);
    }
    assert Uses(t, t.id) > 0;
    forall x: nat
      ensures LatentCount(t.latentIds, x) + (if x in Emplace(m, t.id, Seen(t.key, false)) then 1 else 0) <= 1
    {
      assert Count(current[..i - 1], x) + Uses(t, x) <= 1;
    }
  }

  /** In every state reached in a session with fewer than 2^31 ids issued, observers are handed every shown object and
      every latent id it hosts, each under its own id, and nothing else. */
  lemma ObserversMissNothing(st: Stage, s: Settings, events: seq<Event>, f: Frame)
    requires New(st) && Run(Started(st), s, events).world.ids.issued < 0x8000_0000
    ensures var current := Run(Started(st), s, events).world.current;
      var m := Observed(current, |current|, f);
      |m| == NumShown(current, |current|, f) && forall j :: 0 <= j < |current| && Shown(current[j], f) ==>
        Entered(m, current[j])
  {
    hide *;
    var r := Run(Started(st), s, events);
    StartedIsOk(st);
    SessionsStartSafely(Started(st), s, events);
    RunKeepsStage(Started(st), s, events);
    StageIsDistinct(r);
    var current := r.world.current;
    ObservedIsComplete(current, |current|, f);
    forall j | 0 <= j < |current| && Shown(current[j], f) ensures Entered(Observed(current, |current|, f), current[j]) {
      EntriesAreOwn(current, |current|, f, j);
    }
  }

  lemma StageIsDistinct(r: Stage)
    requires StageOk(r) && r.world.ids.issued < 0x8000_0000
    ensures NoneErasable(r.world.current, |r.world.current|) && forall x: nat :: Count(r.world.current, x) <= 1
  {
    hide Count;
    assert WorldOk(r.world);
  }
}
