/** The tracked layer, frame by frame: which objects are kept, activated and dropped, which ids they carry,
    and how the id of a dropped object is lent to a neighbour until it is reclaimed or forgotten.
    Positions, speeds and masks are measurements of a frame and enter as functions of the objects.  */
module Tracker {
  import opened Common

  // ---- latent ids ----

  datatype LatentId = LatentId(id: nat, timestamp: nat)

  function Decimal(n: nat): string {
    if n < 10 then [(n as char) + '0'] else Decimal(n / 10) + Decimal(n % 10)
  }

  function StringLess(a: string, b: string): bool {
    b != [] && (a == [] || a[0] < b[0] || (a[0] == b[0] && StringLess(a[1..], b[1..])))
  }

  /** Ids are kept in the order of their decimal representations. */
  function KeyLess(a: nat, b: nat): bool {
    StringLess(Decimal(a), Decimal(b))
  }

  /** Adds an id unless it is there already. */
  function Put(l: seq<LatentId>, id: nat, timestamp: nat): seq<LatentId> {
    if l == [] then [LatentId(id, timestamp)]
    else if l[0].id == id then l
    else if KeyLess(id, l[0].id) && !Holds(l, id) then [LatentId(id, timestamp)] + l
    else [l[0]] + Put(l[1..], id, timestamp)
  }

  predicate Holds(l: seq<LatentId>, id: nat) {
    l != [] && (l[0].id == id || Holds(l[1..], id))
  }

  function Remove(l: seq<LatentId>, id: nat): seq<LatentId> {
    if l == [] then [] else (if l[0].id == id then [] else [l[0]]) + Remove(l[1..], id)
  }

  function Older(best: Option<LatentId>, l: LatentId): Option<LatentId> {
    if best.None? || best.value.timestamp == 0 || l.timestamp < best.value.timestamp then Some(l) else best
  }

  /** The id that has been latent longest, if any has a time. */
  function Oldest(l: seq<LatentId>, best: Option<LatentId>): Option<LatentId> {
    if l == [] then best
    else Oldest(l[1..], Older(best, l[0]))
  }

  function Get(l: seq<LatentId>): Option<nat> {
    var o := Oldest(l, None);
    if o.None? || o.value.timestamp == 0 then None else Some(o.value.id)
  }

  function Aged(l: seq<LatentId>, time: nat): seq<LatentId> {
    if l == [] then [] else [l[0].(timestamp := (l[0].timestamp + time) % U64)] + Aged(l[1..], time)
  }

  function Unexpired(l: seq<LatentId>, olderThan: nat, now: nat): seq<LatentId> {
    if l == [] then []
    else (if (l[0].timestamp + olderThan) % U64 < now then [] else [l[0]]) + Unexpired(l[1..], olderThan, now)
  }

  ghost function LatentCount(l: seq<LatentId>, x: nat): nat {
    if l == [] then 0 else (if l[0].id == x then 1 else 0) + LatentCount(l[1..], x)
  }

  lemma {:induction false} HoldsIsCounted(l: seq<LatentId>, x: nat)
    ensures Holds(l, x) <==> LatentCount(l, x) > 0
  {
    if l != [] {
      HoldsIsCounted(l[1..], x);
    }
  }

  lemma {:induction false} PutCounts(l: seq<LatentId>, id: nat, timestamp: nat, x: nat)
    ensures LatentCount(Put(l, id, timestamp), x) == LatentCount(l, x) + if x == id && !Holds(l, id) then 1 else 0
  {
    if l != [] {
      PutCounts(l[1..], id, timestamp, x);
      assert ([LatentId(id, timestamp)] + l)[1..] == l;
      assert ([l[0]] + Put(l[1..], id, timestamp))[1..] == Put(l[1..], id, timestamp);
    }
  }

  lemma {:induction false} RemoveCounts(l: seq<LatentId>, id: nat, x: nat)
    ensures LatentCount(Remove(l, id), x) == if x == id then 0 else LatentCount(l, x)
  {
    if l != [] {
      RemoveCounts(l[1..], id, x);
      if l[0].id != id {
        assert ([l[0]] + Remove(l[1..], id))[1..] == Remove(l[1..], id);
      } else {
        assert [] + Remove(l[1..], id) == Remove(l[1..], id);
      }
    }
  }

  lemma {:induction false} OldestIsHeld(l: seq<LatentId>, best: Option<LatentId>)
    ensures var o := Oldest(l, best); o.Some? ==> o == best || Holds(l, o.value.id)
  {
    if l != [] {
      OldestIsHeld(l[1..], Older(best, l[0]));
    }
  }

  lemma {:induction false} AgedCounts(l: seq<LatentId>, time: nat, x: nat)
    ensures LatentCount(Aged(l, time), x) == LatentCount(l, x)
  {
    if l != [] {
      AgedCounts(l[1..], time, x);
      assert Aged(l, time)[1..] == Aged(l[1..], time);
    }
  }

  lemma {:induction false} UnexpiredCounts(l: seq<LatentId>, olderThan: nat, now: nat, x: nat)
    ensures LatentCount(Unexpired(l, olderThan, now), x) <= LatentCount(l, x)
  {
    if l != [] {
      UnexpiredCounts(l[1..], olderThan, now, x);
      var rest := Unexpired(l[1..], olderThan, now);
      assert ([l[0]] + rest)[1..] == rest && [] + rest == rest;
    }
  }

  // ---- trackables and frames ----

  /** `key` is the identity of the object, `id` its public number, zero while it has none. */
  datatype Trackable = Trackable(key: nat, id: nat, isActivated: bool, touched: bool, erasable: bool,
                                 firstTime: nat, lastTime: nat, splitProb: real, latentIds: seq<LatentId>)

  /** Measurements by key: distance between two objects, how far the speeds of both carry in the frame, and the
      regions an object is in. */
  datatype Geometry = Geometry(distance: (nat, nat) -> real, reach: (nat, nat) -> real, portal: nat -> bool,
                               occluded: nat -> bool)

  /** A frame: the merged objects that were matched to tracked ones, and those that were not, each with the
      probability that it should have been split. */
  datatype Frame = Frame(now: nat, seen: nat -> Option<real>, unseen: seq<real>, geo: Geometry)

  datatype Settings = Settings(keepTime: real, minActiveTime: real, minActiveFraction: real, latentDistance: real,
                               latentLifeTime: nat)

  /** The id counter, and how many ids were ever issued since it was last reset. */
  datatype Ids = Ids(counter: nat, issued: nat)

  function NextId(ids: Ids): Ids {
    var c := (ids.counter + 1) % U32;
    Ids(if c == 0 then 1 else c, ids.issued + 1)
  }

  // ---- lending an id ----

  predicate IsCloser(geo: Geometry, self: Trackable, other: Trackable, distance: real) {
    geo.distance(other.key, self.key) < distance + geo.reach(self.key, other.key)
  }

  /** The last activated neighbour, from index i - 1 down, that was closer than the ones before. */
  function FindHost(current: seq<Trackable>, self: nat, geo: Geometry, i: nat, distance: real,
                    host: Option<nat>): (r: Option<nat>)
    requires self < |current| && i <= |current|
    requires host.Some? ==> host.value < |current| && host.value != self && current[host.value].isActivated
    ensures r.Some? ==> r.value < |current| && r.value != self && current[r.value].isActivated
  {
    if i == 0 then host
    else if i - 1 != self && current[i - 1].isActivated && IsCloser(geo, current[self], current[i - 1], distance)
    then FindHost(current, self, geo, i - 1, geo.distance(current[i - 1].key, current[self].key), Some(i - 1))
    else FindHost(current, self, geo, i - 1, distance, host)
  }

  datatype World = World(current: seq<Trackable>, ids: Ids)

  /** The id of object i is lent to a neighbour, if there is one; an object without an id gets one for that. */
  function PutLatentId(w: World, i: nat, s: Settings, f: Frame): (r: World)
    requires i < |w.current|
    ensures |r.current| == |w.current|
  {
    if s.latentDistance <= 0.0 then w
    else
      var host := FindHost(w.current, i, f.geo, |w.current|, s.latentDistance, None);
      if host.None? then w
      else
        var ids := if w.current[i].id == 0 then NextId(w.ids) else w.ids;
        var self := w.current[i].(id := if w.current[i].id == 0 then ids.counter else w.current[i].id);
        var h := w.current[host.value];
        World(w.current[i := self][host.value := h.(latentIds := Put(h.latentIds, self.id, f.now))], ids)
  }

  /** The oldest latent id of the last activated neighbour, from index j - 1 down, that was closer than the ones
      before; every id looked at on the way is taken from its host. */
  function GetLatentId(current: seq<Trackable>, self: Trackable, geo: Geometry, j: nat, distance: real,
                       id: nat): (r: (seq<Trackable>, nat))
    requires j <= |current|
    ensures |r.0| == |current|
    decreases j
  {
    if j == 0 then (current, id)
    else
      var t := current[j - 1];
      if t.isActivated && Get(t.latentIds).Some? && IsCloser(geo, self, t, distance) then
        var lent := Get(t.latentIds).value;
        GetLatentId(current[j - 1 := t.(latentIds := Remove(t.latentIds, lent))], self, geo, j - 1,
                    geo.distance(t.key, self.key), lent)
      else GetLatentId(current, self, geo, j - 1, distance, id)
  }

  // ---- one frame ----

  /** Matched objects are brought up to date. */
  function Touched(current: seq<Trackable>, f: Frame): (r: seq<Trackable>)
    ensures |r| == |current|
  {
    seq(|current|, i requires 0 <= i < |current| =>
      if f.seen(current[i].key).Some?
      then current[i].(lastTime := f.now, splitProb := f.seen(current[i].key).value, touched := true)
      else current[i].(touched := false))
  }

  predicate Overdue(t: Trackable, s: Settings, f: Frame) {
    !t.touched && Since(f.now, t.lastTime) as real >= s.keepTime
  }

  /** Overdue objects below index i, the last first, lend their ids and are marked. */
  function Dropped(w: World, i: nat, s: Settings, f: Frame): (r: World)
    requires i <= |w.current|
    ensures |r.current| == |w.current|
    decreases i
  {
    if i == 0 then w
    else if Overdue(w.current[i - 1], s, f) then
      var p := if f.geo.portal(w.current[i - 1].key) then w else PutLatentId(w, i - 1, s, f);
      Dropped(p.(current := p.current[i - 1 := p.current[i - 1].(erasable := true)]), i - 1, s, f)
    else Dropped(w, i - 1, s, f)
  }

  function Newcomer(key: nat, now: nat, splitProb: real): Trackable {
    Trackable(key, 0, false, true, false, now, now, splitProb, [])
  }

  function Newcomers(f: Frame, nextKey: nat, k: nat): seq<Trackable>
    requires k <= |f.unseen|
  {
    if k == 0 then [] else Newcomers(f, nextKey, k - 1) + [Newcomer(nextKey + k - 1, f.now, f.unseen[k - 1])]
  }

  function Kept(current: seq<Trackable>): seq<Trackable> {
    if current == [] then []
    else Kept(current[..|current| - 1]) + if current[|current| - 1].erasable then [] else [current[|current| - 1]]
  }

  predicate Stale(t: Trackable, s: Settings, f: Frame) {
    Since(f.now, t.lastTime) as real > s.minActiveTime * s.minActiveFraction
  }

  predicate Ripe(t: Trackable, s: Settings, f: Frame) {
    t.touched && Since(f.now, t.firstTime) as real > s.minActiveTime
  }

  /** Object i becomes public, under a reclaimed id if one is near, else under a new one. */
  function Activated(w: World, i: nat, s: Settings, f: Frame): (r: World)
    requires i < |w.current|
    ensures |r.current| == |w.current|
  {
    var (current, lent) :=
      if f.geo.portal(w.current[i].key) || s.latentDistance <= 0.0 then (w.current, 0)
      else GetLatentId(w.current, w.current[i], f.geo, |w.current|, s.latentDistance, 0);
    var ids := if lent == 0 then NextId(w.ids) else w.ids;
    World(current[i := current[i].(id := if lent == 0 then ids.counter else lent, isActivated := true)], ids)
  }

  function Published(latest: seq<nat>, t: Trackable, f: Frame): seq<nat> {
    if t.isActivated && !f.geo.occluded(t.key) then latest + [t.key] else latest
  }

  datatype Swept = Swept(world: World, latest: seq<nat>)

  /** From index i on: objects on probation are dropped when stale and activated when ripe, and what is active and
      not masked is published. */
  function Sweep(w: World, i: nat, latest: seq<nat>, s: Settings, f: Frame): Swept
    requires i <= |w.current|
    decreases |w.current| - i
  {
    if i == |w.current| then Swept(w, latest)
    else
      var t := w.current[i];
      if !t.isActivated && Stale(t, s, f) then
        Sweep(w.(current := w.current[..i] + w.current[i + 1..]), i, latest, s, f)
      else
        var v := if !t.isActivated && Ripe(t, s, f) then Activated(w, i, s, f) else w;
        Sweep(v, i + 1, Published(latest, v.current[i], f), s, f)
  }

  lemma SweepUnfolds(w: World, i: nat, latest: seq<nat>, s: Settings, f: Frame)
    requires i < |w.current|
    ensures var t := w.current[i];
      !t.isActivated && Stale(t, s, f) ==>
        Sweep(w, i, latest, s, f) == Sweep(w.(current := w.current[..i] + w.current[i + 1..]), i, latest, s, f)
    ensures var t := w.current[i];
      !(!t.isActivated && Stale(t, s, f)) ==>
        var v := if !t.isActivated && Ripe(t, s, f) then Activated(w, i, s, f) else w;
        Sweep(w, i, latest, s, f) == Sweep(v, i + 1, Published(latest, v.current[i], f), s, f)
  {
    hide Activated;
  }

  lemma SweepEnds(w: World, latest: seq<nat>, s: Settings, f: Frame)
    ensures Sweep(w, |w.current|, latest, s, f) == Swept(w, latest)
  {
  }

  /** Latent ids expire; those of an object that may be two grow older more slowly. */
  function CleanedUp(current: seq<Trackable>, s: Settings, f: Frame, timeDiff: nat): (r: seq<Trackable>)
    ensures |r| == |current|
  {
    seq(|current|, i requires 0 <= i < |current| =>
      var t := current[i];
      var l := if t.splitProb > 0.85 then Aged(t.latentIds, timeDiff) else t.latentIds;
      t.(latentIds := Unexpired(l, s.latentLifeTime, f.now)))
  }

  datatype Stage = Stage(world: World, latest: seq<nat>, isStarted: int, timestamp: nat, nextKey: nat)

  /** Without a running session no sensor layer is merged. */
  function Effective(st: Stage, f: Frame): Frame {
    if st.isStarted == 0 then f.(seen := _ => None, unseen := []) else f
  }

  function United(st: Stage, s: Settings, frame: Frame): Stage {
    var f := Effective(st, frame);
    var w0 := st.world.(current := Touched(st.world.current, f));
    var w1 := Dropped(w0, |w0.current|, s, f);
    var w2 := w1.(current := Kept(w1.current + Newcomers(f, st.nextKey, |f.unseen|)));
    var r := Sweep(w2, 0, [], s, f);
    Stage(r.world.(current := CleanedUp(r.world.current, s, f, Since(f.now, st.timestamp))),
          r.latest, st.isStarted, f.now, st.nextKey + |f.unseen|)
  }

  /** Starting a session resets the id counter; it does nothing while one is running. */
  function Started(st: Stage): Stage {
    if st.isStarted == 1 then st else st.(isStarted := 1, world := st.world.(ids := Ids(0, 0)))
  }

  function Cleared(st: Stage): Stage {
    st.(world := st.world.(current := []))
  }

  function Stopped(st: Stage): Stage {
    if st.isStarted == 0 then st else Cleared(st).(isStarted := 0)
  }

  function Reset(st: Stage): Stage {
    Cleared(st).(latest := [])
  }
}
