/** The tracking stage as an object whose methods update its lists in place. */
module TrackerStage {
  import opened Common
  import opened Tracker

  /** A lending that has looked at the neighbours from the last one down to i. */
  lemma HostStep(current: seq<Trackable>, self: nat, geo: Geometry, i: nat, distance: real, host: Option<nat>)
    requires self < |current| && i < |current|
    requires host.Some? ==> host.value < |current| && host.value != self && current[host.value].isActivated
    ensures FindHost(current, self, geo, i + 1, distance, host) ==
      if i != self && current[i].isActivated && IsCloser(geo, current[self], current[i], distance)
      then FindHost(current, self, geo, i, geo.distance(current[i].key, current[self].key), Some(i))
      else FindHost(current, self, geo, i, distance, host)
  {
  }

  lemma HostEnds(current: seq<Trackable>, self: nat, geo: Geometry, distance: real, host: Option<nat>)
    requires self < |current|
    requires host.Some? ==> host.value < |current| && host.value != self && current[host.value].isActivated
    ensures FindHost(current, self, geo, 0, distance, host) == host
  {
  }

  lemma ReclaimStep(current: seq<Trackable>, self: Trackable, geo: Geometry, i: nat, distance: real, id: nat)
    requires i < |current|
    ensures var t := current[i];
      GetLatentId(current, self, geo, i + 1, distance, id) ==
        if t.isActivated && Get(t.latentIds).Some? && IsCloser(geo, self, t, distance)
        then GetLatentId(current[i := t.(latentIds := Remove(t.latentIds, Get(t.latentIds).value))], self, geo, i,
                         geo.distance(t.key, self.key), Get(t.latentIds).value)
        else GetLatentId(current, self, geo, i, distance, id)
  {
  }

  lemma ReclaimEnds(current: seq<Trackable>, self: Trackable, geo: Geometry, distance: real, id: nat)
    ensures GetLatentId(current, self, geo, 0, distance, id) == (current, id)
  {
  }

  class TrackableMultiStage {
    var current: seq<Trackable>
    var latest: seq<nat>
    var nextId: nat
    var isStarted: int
    var timestamp: nat
    ghost var issued: nat
    /** The identity the next object will have. */
    var nextKey: nat

    ghost function State(): Stage
      reads this
    {
      Stage(World(current, Ids(nextId, issued)), latest, isStarted, timestamp, nextKey)
    }

    constructor ()
      ensures current == [] && latest == [] && isStarted == -1
    {
      current, latest, nextId, isStarted, timestamp := [], [], 0, -1, 0;
      issued, nextKey := 0, 0;
    }

    /** The next public id; zero is never given out, and until the counter goes round no id a second time. */
    method NewId() returns (id: nat)
      modifies this`nextId, this`issued
      ensures Ids(nextId, issued) == NextId(Ids(old(nextId), old(issued))) && id == nextId
      ensures 0 < id < U32 && id != old(nextId)
      ensures old(nextId) == old(issued) < U32 - 1 ==> id == issued == old(issued) + 1
    {
      nextId := (nextId + 1) % U32;
      if nextId == 0 {
        nextId := 1;
      }
      issued := issued + 1;
      id := nextId;
    }

    method LendId(self: nat, s: Settings, f: Frame)
      requires self < |current|
      modifies this`current, this`nextId, this`issued
      ensures World(current, Ids(nextId, issued)) == PutLatentId(old(World(current, Ids(nextId, issued))), self, s, f)
    {
      hide FindHost, NextId;
      if s.latentDistance <= 0.0 {
        return;
      }
      var distance := s.latentDistance;
      var latentHost := -1;
      var i := |current|;
      while i > 0
        invariant 0 <= i <= |current| && -1 <= latentHost < |current|
        invariant latentHost >= 0 ==> latentHost != self && current[latentHost].isActivated
        invariant FindHost(current, self, f.geo, |current|, s.latentDistance, None) ==
          FindHost(current, self, f.geo, i, distance, if latentHost >= 0 then Some(latentHost) else None)
        modifies {}
      {
        i := i - 1;
        HostStep(current, self, f.geo, i, distance, if latentHost >= 0 then Some(latentHost) else None);
        if i != self && current[i].isActivated && IsCloser(f.geo, current[self], current[i], distance) {
          distance := f.geo.distance(current[i].key, current[self].key);
          latentHost := i;
        }
      }
      HostEnds(current, self, f.geo, distance, if latentHost >= 0 then Some(latentHost) else None);
      if latentHost >= 0 {
        if current[self].id == 0 {
          var id := NewId();
          current := current[self := current[self].(id := id)];
        }
        var h := current[latentHost];
        current := current[latentHost := h.(latentIds := Put(h.latentIds, current[self].id, f.now))];
      }
    }

    method ReclaimId(self: nat, s: Settings, f: Frame) returns (latentId: nat)
      requires self < |current|
      modifies this`current
      ensures (current, latentId) == if s.latentDistance <= 0.0 then (old(current), 0)
        else GetLatentId(old(current), old(current)[self], f.geo, |old(current)|, s.latentDistance, 0)
    {
      hide GetLatentId;
      latentId := 0;
      if s.latentDistance <= 0.0 {
        return;
      }
      ghost var goal := GetLatentId(current, current[self], f.geo, |current|, s.latentDistance, 0);
      var currentTrackable := current[self];
      var distance := s.latentDistance;
      var i := |current|;
      while i > 0
        invariant 0 <= i <= |current| == |old(current)|
        invariant GetLatentId(current, currentTrackable, f.geo, i, distance, latentId) == goal
      {
        i := i - 1;
        ReclaimStep(current, currentTrackable, f.geo, i, distance, latentId);
        var t := current[i];
        if t.isActivated {
          var lId := Get(t.latentIds);
          if lId.Some? && IsCloser(f.geo, currentTrackable, t, distance) {
            latentId := lId.value;
            distance := f.geo.distance(t.key, currentTrackable.key);
            current := current[i := t.(latentIds := Remove(t.latentIds, latentId))];
          }
        }
      }
      ReclaimEnds(current, currentTrackable, f.geo, distance, latentId);
    }

    /** Matched objects take over the time and the data of their partners. */
    method Touch(f: Frame)
      modifies this`current
      ensures current == Touched(old(current), f)
    {
      var i := |current|;
      while i > 0
        invariant 0 <= i <= |current| == |old(current)|
        invariant forall k :: 0 <= k < i ==> current[k] == old(current)[k]
        invariant forall k :: i <= k < |current| ==> current[k] == Touched(old(current), f)[k]
      {
        i := i - 1;
        var t := current[i];
        var seen := f.seen(t.key);
        if seen.Some? {
          t := t.(lastTime := f.now, splitProb := seen.value);
        }
        current := current[i := t.(touched := seen.Some?)];
      }
    }

    /** Objects that have not been matched for too long lend their ids and are marked. */
    method MarkOverdue(s: Settings, f: Frame)
      modifies this`current, this`nextId, this`issued
      ensures World(current, Ids(nextId, issued)) ==
        Dropped(old(World(current, Ids(nextId, issued))), |old(current)|, s, f)
    {
      hide PutLatentId;
      ghost var goal := Dropped(World(current, Ids(nextId, issued)), |current|, s, f);
      var i := |current|;
      while i > 0
        invariant 0 <= i <= |current| && Dropped(World(current, Ids(nextId, issued)), i, s, f) == goal
      {
        i := i - 1;
        if !current[i].touched {
          var tdiff := Since(f.now, current[i].lastTime);
          if tdiff as real >= s.keepTime {
            if !f.geo.portal(current[i].key) {
              LendId(i, s, f);
            }
            current := current[i := current[i].(erasable := true)];
          }
        }
      }
    }

    /** Merged objects without a partner start a life of their own. */
    method AddUnseen(f: Frame)
      modifies this`current, this`nextKey
      ensures current == old(current) + Newcomers(f, old(nextKey), |f.unseen|) && nextKey == old(nextKey) + |f.unseen|
    {
      var i := 0;
      while i < |f.unseen|
        invariant 0 <= i <= |f.unseen| && nextKey == old(nextKey) + i
        invariant current == old(current) + Newcomers(f, old(nextKey), i)
      {
        var newcomer := Newcomer(nextKey, f.now, f.unseen[i]);
        assert old(current) + (Newcomers(f, old(nextKey), i) + [newcomer]) == current + [newcomer];
        current := current + [newcomer];
        nextKey := nextKey + 1;
        i := i + 1;
      }
    }

    /** Marked objects leave the list, from the back. */
    method EraseMarked()
      modifies this`current
      ensures current == Kept(old(current))
    {
      var i := |current|;
      assert current[..i] == current && current[i..] == [];
      while i > 0
        invariant 0 <= i <= |current|
        invariant Kept(current[..i]) + current[i..] == Kept(old(current))
      {
        i := i - 1;
        ghost var was := current;
        assert was[..i + 1][..i] == was[..i];
        if current[i].erasable {
          current := current[..i] + current[i + 1..];
          assert current[..i] == was[..i] && current[i..] == was[i + 1..];
        } else {
          assert was[i..] == [was[i]] + was[i + 1..];
        }
      }
      assert current[i..] == current;
    }

    method Activate(i: nat, s: Settings, f: Frame)
      requires i < |current|
      modifies this`current, this`nextId, this`issued
      ensures World(current, Ids(nextId, issued)) == Activated(old(World(current, Ids(nextId, issued))), i, s, f)
    {
      hide GetLatentId, NextId;
      var id := 0;
      if !f.geo.portal(current[i].key) {
        id := ReclaimId(i, s, f);
      }
      if id == 0 {
        id := NewId();
      }
      current := current[i := current[i].(id := id, isActivated := true)];
    }

    /** Objects on probation are dropped or activated, and active ones are published unless masked. */
    method Transfer(s: Settings, f: Frame)
      modifies this`current, this`latest, this`nextId, this`issued
      ensures Swept(World(current, Ids(nextId, issued)), latest) ==
        Sweep(old(World(current, Ids(nextId, issued))), 0, [], s, f)
    {
      hide Activated, Sweep;
      ghost var goal := Sweep(World(current, Ids(nextId, issued)), 0, [], s, f);
      latest := [];
      var i := 0;
      while i < |current|
        invariant 0 <= i <= |current| && Sweep(World(current, Ids(nextId, issued)), i, latest, s, f) == goal
        decreases |current| - i
      {
        SweepUnfolds(World(current, Ids(nextId, issued)), i, latest, s, f);
        var t := current[i];
        var erased := false;
        if !t.isActivated {
          if Since(f.now, t.lastTime) as real > s.minActiveTime * s.minActiveFraction {
            current := current[..i] + current[i + 1..];
            erased := true;
          } else if t.touched && Since(f.now, t.firstTime) as real > s.minActiveTime {
            Activate(i, s, f);
          }
        }
        if !erased {
          if current[i].isActivated && !f.geo.occluded(current[i].key) {
            latest := latest + [current[i].key];
          }
          i := i + 1;
        }
      }
      SweepEnds(World(current, Ids(nextId, issued)), latest, s, f);
    }

    method Cleanup(s: Settings, f: Frame, timeDiff: nat)
      modifies this`current
      ensures current == CleanedUp(old(current), s, f, timeDiff)
    {
      var i := 0;
      while i < |current|
        invariant 0 <= i <= |current| == |old(current)|
        invariant forall k :: 0 <= k < i ==> current[k] == CleanedUp(old(current), s, f, timeDiff)[k]
        invariant forall k :: i <= k < |current| ==> current[k] == old(current)[k]
      {
        var t := current[i];
        var l := t.latentIds;
        if t.splitProb > 0.85 {
          l := Aged(l, timeDiff);
        }
        current := current[i := t.(latentIds := Unexpired(l, s.latentLifeTime, f.now))];
        i := i + 1;
      }
    }

    /** One frame. */
    method Unite(s: Settings, frame: Frame)
      modifies this
      ensures State() == United(old(State()), s, frame)
    {
      hide Touched, Dropped, Newcomers, Kept, Sweep, CleanedUp;
      var f := frame;
      if isStarted == 0 {
        f := frame.(seen := _ => None, unseen := []);
      }
      assert f == Effective(State(), frame);
      var timeDiff := Since(f.now, timestamp);
      timestamp := f.now;
      Touch(f);
      MarkOverdue(s, f);
      AddUnseen(f);
      EraseMarked();
      Transfer(s, f);
      Cleanup(s, f, timeDiff);
    }

    method Start()
      modifies this`isStarted, this`nextId, this`issued
      ensures State() == Started(old(State()))
    {
      if isStarted == 1 {
        return;
      }
      isStarted := 1;
      nextId, issued := 0, 0;
    }

    method Clear()
      modifies this`current
      ensures State() == Cleared(old(State()))
    {
      current := [];
    }

    method Stop()
      modifies this`current, this`isStarted
      ensures State() == Stopped(old(State()))
    {
      if isStarted == 0 {
        return;
      }
      Clear();
      isStarted := 0;
    }

    method ResetStage()
      modifies this`current, this`latest
      ensures State() == Reset(old(State()))
    {
      Clear();
      latest := [];
    }
  }
}
