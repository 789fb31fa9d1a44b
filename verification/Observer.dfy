/** What one frame does to the objects and the counters of one region. */
module Observer {
  import opened Common
  import opened Regions

  /** An unsigned 64-bit number. */
  function Wrapped(n: nat): (r: nat)
    ensures r < U64
  {
    n % U64
  }

  // ---- frames ----

  /** An object of a frame; `last` is where it was in the frame before. */
  datatype ObsvObject = ObsvObject(timestamp: nat, x: real, y: real, last: Option<(real, real)>, latent: bool,
                                   touched: bool)

  datatype Frame = Frame(timestamp: nat, objects: map<int, ObsvObject>)

  datatype Status = Invalid | Enter | Move | Leave

  /** An object of a region. */
  datatype Tracked = Tracked(status: Status, edge: Edge, timestamp: nat, enter: nat, touched: nat, x: real, y: real)

  datatype Settings = Settings(rects: Rects, useLatent: bool, smoothing: real, maxFPS: real, alwaysOn: bool,
                               reporting: bool)

  datatype Region = Region(objects: map<int, Tracked>, validCount: int, lastCount: int,
                           enterCount: nat, leaveCount: nat, gateCount: nat,
                           lifespanSum: nat, lifespanCount: nat, switchTimestamp: nat, switchDurationSum: nat)

  // ---- the objects ----

  ghost predicate Inside(c: Settings, i: nat, f: Frame, id: int)
    requires i < NumRects(c.rects)
  {
    && id in f.objects && (c.useLatent || !f.objects[id].latent)
    && Contains(c.rects, i, f.objects[id].x, f.objects[id].y)
  }

  function Entering(c: Settings, i: nat, f: Frame, o: ObsvObject): Tracked
    requires i < NumRects(c.rects)
  {
    var (x, y) := if o.last.Some? then o.last.value else (o.x, o.y);
    Tracked(Enter, EdgeCrossed(c.rects, i, x, y), o.timestamp, o.timestamp,
            if o.touched then f.timestamp else o.timestamp, o.x, o.y)
  }

  function Smoothed(c: Settings, from: real, to: real): real {
    if c.smoothing > 0.0 then c.smoothing * from + (1.0 - c.smoothing) * to else to
  }

  function Moving(c: Settings, f: Frame, t: Tracked, o: ObsvObject): Tracked {
    Tracked(Move, EdgeNone, o.timestamp, t.enter, if o.touched then f.timestamp else t.touched,
            Smoothed(c, t.x, o.x), Smoothed(c, t.y, o.y))
  }

  function Leaving(c: Settings, i: nat, f: Frame, t: Tracked, id: int): Tracked
    requires i < NumRects(c.rects)
  {
    var (x, y) := if id in f.objects then (f.objects[id].x, f.objects[id].y) else (t.x, t.y);
    t.(status := Leave, edge := EdgeCrossed(c.rects, i, x, y))
  }

  /** What is reported of one object. */
  ghost function Fate(c: Settings, i: nat, objects: map<int, Tracked>, f: Frame, id: int): Tracked
    requires i < NumRects(c.rects) && (id in objects || Inside(c, i, f, id))
  {
    if !Inside(c, i, f, id) then Leaving(c, i, f, objects[id], id)
    else if id in objects then Moving(c, f, objects[id], f.objects[id])
    else Entering(c, i, f, f.objects[id])
  }

  /** The objects as they are reported, those that just left included. */
  ghost function Reported(c: Settings, i: nat, objects: map<int, Tracked>, f: Frame): map<int, Tracked>
    requires i < NumRects(c.rects)
  {
    map id | id in objects.Keys + f.objects.Keys && (id in objects || Inside(c, i, f, id)) :: Fate(c, i, objects, f, id)
  }

  ghost function Having(m: map<int, Tracked>, status: Status): set<int> {
    set id | id in m && m[id].status == status
  }

  function Erased(m: map<int, Tracked>): map<int, Tracked> {
    map id | id in m && m[id].status != Leave :: m[id]
  }

  /** Whose crossing counts for the gate. */
  ghost function Counted(c: Settings, i: nat, m: map<int, Tracked>, status: Status): set<int>
    requires i < NumRects(c.rects)
  {
    set id | id in m && m[id].status == status && CountEdge(c.rects, i, m[id].edge) == 1
  }

  function Lifespan(t: Tracked): nat {
    Since(t.touched, t.enter)
  }

  /** The sum of the lifespans of some objects. */
  ghost function LifespanOf(m: map<int, Tracked>, ids: set<int>): nat
    requires ids <= m.Keys
    decreases |ids|
  {
    if ids == {} then 0
    else
      SomeElement(ids);
      var id :| id in ids;
      Lifespan(m[id]) + LifespanOf(m, ids - {id})
  }

  lemma {:induction false} LifespanWithout(m: map<int, Tracked>, ids: set<int>, id: int)
    requires ids <= m.Keys && id in ids
    ensures LifespanOf(m, ids) == Lifespan(m[id]) + LifespanOf(m, ids - {id})
    decreases |ids|
  {
    hide Lifespan;
    var first :| first in ids && LifespanOf(m, ids) == Lifespan(m[first]) + LifespanOf(m, ids - {first});
    if first != id {
      LifespanWithout(m, ids - {first}, id);
      assert ids - {first} - {id} == ids - {id} - {first};
      LifespanWithout(m, ids - {id}, first);
    }
  }

  /** The sum depends on the lifespans alone. */
  lemma {:induction false} LifespanAgrees(m: map<int, Tracked>, n: map<int, Tracked>, ids: set<int>)
    requires ids <= m.Keys && ids <= n.Keys
    requires forall id :: id in ids ==> Lifespan(m[id]) == Lifespan(n[id])
    ensures LifespanOf(m, ids) == LifespanOf(n, ids)
    decreases |ids|
  {
    hide Lifespan;
    if ids != {} {
      SomeElement(ids);
      var id :| id in ids;
      LifespanWithout(m, ids, id);
      LifespanWithout(n, ids, id);
      LifespanAgrees(m, n, ids - {id});
    }
  }

  /** A sum of lifespans with those of the objects that just left. */
  ghost function LifespansAdded(sum: nat, m: map<int, Tracked>): nat {
    Wrapped(sum + LifespanOf(m, Having(m, Leave)))
  }

  lemma SumsWrapTogether(a: nat, b: nat)
    ensures Wrapped(Wrapped(a) + b) == Wrapped(a + b)
  {
  }

  // ---- the region ----

  function Gate(enterCount: nat, leaveCount: nat): nat {
    if enterCount < leaveCount then 0 else enterCount - leaveCount
  }

  /** The region when it is reported. */
  ghost function Updated(c: Settings, i: nat, r: Region, f: Frame): Region
    requires i < NumRects(c.rects)
  {
    var m := Reported(c, i, r.objects, f);
    var enters := r.enterCount + |Counted(c, i, m, Enter)|;
    var leaves := r.leaveCount + |Counted(c, i, m, Leave)|;
    var gone := Having(m, Leave);
    var validCount := |m| - |gone|;
    var since := if r.validCount == 0 then 0 else r.switchTimestamp;
    Region(m, validCount, r.validCount, enters, leaves,
           if Having(m, Enter) + gone == {} then r.gateCount else Gate(enters, leaves),
           LifespansAdded(r.lifespanSum, m), r.lifespanCount + |gone|,
           if validCount > 0 && r.validCount <= 0 then f.timestamp else since,
           if validCount == 0 && r.validCount > 0 && since > 0
           then Wrapped(r.switchDurationSum + Since(f.timestamp, since))
           else r.switchDurationSum)
  }

  /** The region after the frame: what left is forgotten. */
  ghost function Observed(c: Settings, i: nat, r: Region, f: Frame): Region
    requires i < NumRects(c.rects)
  {
    var u := Updated(c, i, r, f);
    u.(objects := Erased(u.objects))
  }

  function Restarted(r: Region): Region {
    Region(r.objects, r.validCount, -1, 0, 0, 0, 0, 0, 0, 0)
  }

  function Cleared(r: Region): Region {
    Restarted(r).(objects := map[], validCount := 0)
  }

  /** What holds of a region between frames. */
  ghost predicate RegionOk(r: Region) {
    && r.validCount == |r.objects|
    && r.gateCount == Gate(r.enterCount, r.leaveCount)
    && r.lifespanSum < U64
    && (forall id :: id in r.objects ==> r.objects[id].status != Leave)
  }

  lemma ErasedIsRest(m: map<int, Tracked>)
    ensures |Erased(m)| == |m| - |Having(m, Leave)|
  {
    assert m.Keys == Erased(m).Keys + Having(m, Leave);
    assert |m.Keys| == |m|;
  }

  /** A region holds exactly the visible objects inside it, and `validCount` counts them. */
  lemma HoldsWhatIsInside(c: Settings, i: nat, r: Region, f: Frame)
    requires i < NumRects(c.rects)
    ensures var o := Observed(c, i, r, f);
      && o.validCount == |o.objects|
      && forall id :: id in o.objects <==> Inside(c, i, f, id)
  {
    ErasedIsRest(Reported(c, i, r.objects, f));
  }

  lemma ObservingKeepsRegion(c: Settings, i: nat, r: Region, f: Frame)
    requires i < NumRects(c.rects) && RegionOk(r)
    ensures RegionOk(Observed(c, i, r, f))
  {
    hide Fate, LifespanOf, Reported;
    var m := Reported(c, i, r.objects, f);
    ErasedIsRest(m);
    assert Counted(c, i, m, Enter) <= Having(m, Enter) && Counted(c, i, m, Leave) <= Having(m, Leave);
    if Having(m, Enter) + Having(m, Leave) == {} {
      assert Counted(c, i, m, Enter) == {} && Counted(c, i, m, Leave) == {};
    }
  }

  /** A frame without objects empties the region: everything in it leaves. */
  lemma EmptyFrameDrains(c: Settings, i: nat, r: Region, timestamp: nat)
    requires i < NumRects(c.rects)
    ensures Observed(c, i, r, Frame(timestamp, map[])).objects == map[]
    ensures Having(Reported(c, i, r.objects, Frame(timestamp, map[])), Leave) == r.objects.Keys
  {
    var f := Frame(timestamp, map[]);
    assert forall id :: id in r.objects ==> Reported(c, i, r.objects, f)[id].status == Leave;
  }

  // ---- what is seen, reported and counted ----

  /** Latent objects are seen only by observers that ask for them; all others wherever the region holds them. */
  lemma LatentObjectsAreHidden(c: Settings, i: nat, f: Frame, id: int)
    requires i < NumRects(c.rects) && id in f.objects
    ensures f.objects[id].latent && !c.useLatent ==> !Inside(c, i, f, id)
    ensures !f.objects[id].latent || c.useLatent ==>
      (Inside(c, i, f, id) <==> Contains(c.rects, i, f.objects[id].x, f.objects[id].y))
  {
    hide Contains;
  }

  /** A point lies on the side that the region watches. */
  ghost predicate IsWatched(rects: Rects, i: nat, x: real, y: real)
    requires i < NumRects(rects)
  {
    exists edge :: edge != EdgeNone && Watches(rects, i, edge) && LiesOn(edge, x, y)
  }

  /** An object that comes into the region is reported where it is, but its crossing is counted for where it was
      before: iff that is on the side the region watches. */
  lemma EnterReports(c: Settings, i: nat, objects: map<int, Tracked>, f: Frame, id: int)
    requires i < NumRects(c.rects) && Inside(c, i, f, id) && id !in objects
    ensures var m, o := Reported(c, i, objects, f), f.objects[id];
      && id in m && m[id].status == Enter && m[id].x == o.x && m[id].y == o.y && m[id].enter == o.timestamp
      && m[id].touched == (if o.touched then f.timestamp else o.timestamp)
      && id !in Counted(c, i, m, Leave)
      && (o.last.Some? ==> (id in Counted(c, i, m, Enter) <==> IsWatched(c.rects, i, o.last.value.0, o.last.value.1)))
      && (o.last.None? ==> (id in Counted(c, i, m, Enter) <==> IsWatched(c.rects, i, o.x, o.y)))
  {
    hide Contains, EdgeCrossed, CountEdge, IsWatched;
    var o := f.objects[id];
    if o.last.Some? {
      WatchedIsCounted(c.rects, i, o.last.value.0, o.last.value.1);
    } else {
      WatchedIsCounted(c.rects, i, o.x, o.y);
    }
  }

  /** The crossing of one that leaves is counted for where it is now, if it is still in the frame, else for where it
      was last reported. */
  lemma LeaveReports(c: Settings, i: nat, objects: map<int, Tracked>, f: Frame, id: int)
    requires i < NumRects(c.rects) && !Inside(c, i, f, id) && id in objects
    ensures var m := Reported(c, i, objects, f);
      && id in m && m[id].status == Leave && m[id].enter == objects[id].enter && m[id].touched == objects[id].touched
      && id !in Counted(c, i, m, Enter)
      && (id in f.objects ==>
            (id in Counted(c, i, m, Leave) <==> IsWatched(c.rects, i, f.objects[id].x, f.objects[id].y)))
      && (id !in f.objects ==>
            (id in Counted(c, i, m, Leave) <==> IsWatched(c.rects, i, objects[id].x, objects[id].y)))
  {
    hide Inside, EdgeCrossed, CountEdge, IsWatched;
    if id in f.objects {
      WatchedIsCounted(c.rects, i, f.objects[id].x, f.objects[id].y);
    } else {
      WatchedIsCounted(c.rects, i, objects[id].x, objects[id].y);
    }
  }

  lemma WatchedIsCounted(rects: Rects, i: nat, x: real, y: real)
    requires i < NumRects(rects)
    ensures CountEdge(rects, i, EdgeCrossed(rects, i, x, y)) == 1 <==> IsWatched(rects, i, x, y)
  {
    CountedCrossings(rects, i, x, y);
  }

  /** One that stays inside crosses nothing. With smoothing it is reported on the way between where it was reported
      before and where it is, and as far from that as the smoothing says. */
  lemma MoveReports(c: Settings, i: nat, objects: map<int, Tracked>, f: Frame, id: int)
    requires i < NumRects(c.rects) && Inside(c, i, f, id) && id in objects
    ensures var m, o, before := Reported(c, i, objects, f), f.objects[id], objects[id];
      && id in m && m[id].status == Move && m[id].edge == EdgeNone && m[id].enter == before.enter
      && m[id].touched == (if o.touched then f.timestamp else before.touched)
      && (c.smoothing <= 0.0 ==> m[id].x == o.x && m[id].y == o.y)
      && (c.smoothing > 0.0 ==>
            m[id].x - o.x == Times(c.smoothing, before.x - o.x) && m[id].y - o.y == Times(c.smoothing, before.y - o.y))
    ensures id !in Counted(c, i, Reported(c, i, objects, f), Enter) + Counted(c, i, Reported(c, i, objects, f), Leave)
  {
    hide Contains, CountEdge;
    OnTheWay(c.smoothing, objects[id].x, f.objects[id].x);
    OnTheWay(c.smoothing, objects[id].y, f.objects[id].y);
  }

  lemma OnTheWay(s: real, p: real, q: real)
    ensures s * p + (1.0 - s) * q - q == Times(s, p - q)
  {
  }

  /** The gate shows how many more have come in than gone out over the watched side, and nothing if more have gone. */
  lemma GateIsSurplus(enterCount: nat, leaveCount: nat)
    ensures enterCount >= leaveCount ==> Gate(enterCount, leaveCount) + leaveCount == enterCount
    ensures enterCount <= leaveCount ==> Gate(enterCount, leaveCount) == 0
  {
  }

  /** After a frame a region remembers how many objects were in it before; a restart forgets that and all counts, but no
      object; a reset forgets these too. */
  lemma RegionsRemember(c: Settings, i: nat, r: Region, f: Frame)
    requires i < NumRects(c.rects)
    ensures Observed(c, i, r, f).lastCount == r.validCount
    ensures Restarted(r) == Region(r.objects, r.validCount, -1, 0, 0, 0, 0, 0, 0, 0)
    ensures Cleared(r) == Region(map[], 0, -1, 0, 0, 0, 0, 0, 0, 0)
  {
  }
}
