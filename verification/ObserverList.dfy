/** The list of observers of a stage: it starts, feeds, empties and stops them. */
module ObserverList {
  import opened Common
  import opened Regions
  import opened Observer
  import opened RegionObjects
  import opened TrackableObserver
  import R = ObserverRuns

  /** The regions of some observers. */
  ghost function RegionsOf(observers: seq<TrackableObserver>): (all: set<ObsvObjects>)
    ensures forall i :: 0 <= i < |observers| ==> Owns(all, observers[i])
  {
    set o, r | o in observers && r in o.regions :: r
  }

  ghost predicate Owns(all: set<ObsvObjects>, o: TrackableObserver) {
    forall r :: r in o.regions ==> r in all
  }

  twostate lemma StateStays(o: TrackableObserver)
    requires unchanged(o) && forall r :: r in o.regions ==> unchanged(r)
    ensures o.State() == old(o.State())
  {
    forall i | 0 <= i < |o.regions| ensures o.regions[i].State() == old(o.regions[i].State()) {
      assert o.regions[i] in o.regions;
    }
    assert o.State().regions == old(o.State().regions);
  }

  class TrackableMultiObserver {
    const observer: seq<TrackableObserver>
    var isStarted: int

    ghost predicate Valid()
      reads observer, RegionsOf(observer)
    {
      && (forall i :: 0 <= i < |observer| ==> observer[i].Valid())
      && (forall i, k :: 0 <= i < k < |observer| ==> Apart(observer[i], observer[k]))
    }

    constructor (observers: seq<TrackableObserver>)
      ensures observer == observers && isStarted == -1
    {
      observer, isStarted := observers, -1;
    }

    method Observe(other: Frame, force: bool)
      requires Valid()
      modifies observer, RegionsOf(observer)
      ensures Valid()
      ensures forall i :: 0 <= i < |observer| ==>
        observer[i].State() == R.HandedOut(observer[i].settings, old(observer[i].State()), other, force)
    {
      hide RegionsOf, R.Observing;
      for i := 0 to |observer|
        invariant Valid()
        invariant forall k :: i <= k < |observer| ==> observer[k].State() == old(observer[k].State())
        invariant forall k :: 0 <= k < i ==>
          observer[k].State() == R.HandedOut(observer[k].settings, old(observer[k].State()), other, force)
      {
        OthersAreApart(i);
        label before:
        if observer[i].isStarted == 1 || observer[i].settings.alwaysOn {
          var _, _ := observer[i].Observe(other, force);
        }
        forall k | 0 <= k < |observer| && k != i ensures observer[k].State() == old@before(observer[k].State()) {
          StateStays@before(observer[k]);
        }
      }
    }

    /** The footprint of an observer is disjoint from those of the others. */
    lemma OthersAreApart(i: nat)
      requires Valid() && i < |observer|
      ensures forall k :: 0 <= k < |observer| && k != i ==> Apart(observer[i], observer[k])
    {
    }

    method Start(now: nat, startRects: bool)
      requires Valid()
      modifies this`isStarted, observer, RegionsOf(observer)
      ensures Valid() && isStarted == 1
      ensures forall i :: 0 <= i < |observer| ==>
        observer[i].State() == (if old(isStarted) == 1 then old(observer[i].State())
                                else R.Starting(observer[i].settings, old(observer[i].State()), now, startRects))
    {
      hide RegionsOf, R.Starting;
      if isStarted == 1 {
        return;
      }
      isStarted := 1;
      for i := 0 to |observer|
        invariant Valid() && isStarted == 1
        invariant forall k :: i <= k < |observer| ==> observer[k].State() == old(observer[k].State())
        invariant forall k :: 0 <= k < i ==>
          observer[k].State() == R.Starting(observer[k].settings, old(observer[k].State()), now, startRects)
      {
        OthersAreApart(i);
        label before:
        var _ := observer[i].Start(now, startRects);
        forall k | 0 <= k < |observer| && k != i ensures observer[k].State() == old@before(observer[k].State()) {
          StateStays@before(observer[k]);
        }
      }
    }

    method StartAlwaysObserver(now: nat, startRects: bool)
      requires Valid()
      modifies observer, RegionsOf(observer)
      ensures Valid()
      ensures forall i :: 0 <= i < |observer| ==>
        observer[i].State() == StartedAlways(observer[i].settings, old(observer[i].State()), now, startRects)
    {
      hide RegionsOf, R.Starting;
      for i := 0 to |observer|
        invariant Valid()
        invariant forall k :: i <= k < |observer| ==> observer[k].State() == old(observer[k].State())
        invariant forall k :: 0 <= k < i ==>
          observer[k].State() == StartedAlways(observer[k].settings, old(observer[k].State()), now, startRects)
      {
        OthersAreApart(i);
        label before:
        if observer[i].settings.alwaysOn {
          var _ := observer[i].Start(now, startRects);
        }
        forall k | 0 <= k < |observer| && k != i ensures observer[k].State() == old@before(observer[k].State()) {
          StateStays@before(observer[k]);
        }
      }
    }

    method Stop(now: nat)
      requires Valid()
      modifies this`isStarted, observer, RegionsOf(observer)
      ensures Valid() && isStarted == 0
      ensures forall i :: 0 <= i < |observer| ==>
        observer[i].State() == (if old(isStarted) == 0 then old(observer[i].State())
                                else R.Stopping(observer[i].settings, old(observer[i].State()), now))
    {
      hide RegionsOf, R.Stopping;
      if isStarted == 0 {
        return;
      }
      isStarted := 0;
      for i := 0 to |observer|
        invariant Valid() && isStarted == 0
        invariant forall k :: i <= k < |observer| ==> observer[k].State() == old(observer[k].State())
        invariant forall k :: 0 <= k < i ==>
          observer[k].State() == R.Stopping(observer[k].settings, old(observer[k].State()), now)
      {
        OthersAreApart(i);
        label before:
        var _ := observer[i].Stop(now);
        forall k | 0 <= k < |observer| && k != i ensures observer[k].State() == old@before(observer[k].State()) {
          StateStays@before(observer[k]);
        }
      }
    }

    method ResetAll(now: nat)
      requires Valid()
      modifies observer, RegionsOf(observer)
      ensures Valid()
      ensures forall i :: 0 <= i < |observer| ==>
        observer[i].State() == R.Resetting(observer[i].settings, old(observer[i].State()), now)
    {
      hide RegionsOf, R.Resetting;
      for i := 0 to |observer|
        invariant Valid()
        invariant forall k :: i <= k < |observer| ==> observer[k].State() == old(observer[k].State())
        invariant forall k :: 0 <= k < i ==>
          observer[k].State() == R.Resetting(observer[k].settings, old(observer[k].State()), now)
      {
        OthersAreApart(i);
        label before:
        observer[i].ResetAll(now);
        forall k | 0 <= k < |observer| && k != i ensures observer[k].State() == old@before(observer[k].State()) {
          StateStays@before(observer[k]);
        }
      }
    }
  }

  function StartedAlways(c: Settings, s: R.State, now: nat, startRects: bool): R.State {
    if c.alwaysOn then R.Starting(c, s, now, startRects) else s
  }

  ghost predicate Apart(a: TrackableObserver, b: TrackableObserver) {
    a != b && forall r :: r in a.regions ==> r !in b.regions
  }

  /** The part of a tracking stage that deals with its observers. */
  class ObservedStage {
    const list: TrackableMultiObserver
    var isStarted: int
    var last: nat

    ghost predicate Valid()
      reads this, list.observer, RegionsOf(list.observer)
    {
      list.Valid()
    }

    /** The stage with observer i in view. */
    ghost function View(i: nat): R.Stage
      requires i < |list.observer|
      reads this, list, list.observer, RegionsOf(list.observer)
    {
      R.Stage(isStarted, list.isStarted, last, list.observer[i].State())
    }

    constructor (l: TrackableMultiObserver)
      ensures list == l && isStarted == -1 && last == 0
    {
      list, isStarted, last := l, -1, 0;
    }

    method Start(now: nat)
      requires Valid()
      modifies this, list, list.observer, RegionsOf(list.observer)
      ensures Valid()
      ensures forall i :: 0 <= i < |list.observer| ==>
        View(i) == R.StageNext(list.observer[i].settings, old(View(i)), R.StartStage(now))
    {
      hide RegionsOf, R.Starting;
      if isStarted == 1 {
        return;
      }
      isStarted := 1;
      list.Start(now, true);
    }

    method Clear()
      requires Valid()
      modifies this, list, list.observer, RegionsOf(list.observer)
      ensures Valid()
      ensures forall i :: 0 <= i < |list.observer| ==>
        View(i) == R.StageNext(list.observer[i].settings, old(View(i)), R.ClearStage)
    {
      hide RegionsOf, R.Observing;
      list.Observe(Frame(last, map[]), true);
    }

    method Stop(now: nat)
      requires Valid()
      modifies this, list, list.observer, RegionsOf(list.observer)
      ensures Valid()
      ensures forall i :: 0 <= i < |list.observer| ==>
        View(i) == R.StageNext(list.observer[i].settings, old(View(i)), R.StopStage(now))
    {
      hide RegionsOf, R.Observing, R.Stopping;
      if isStarted == 0 {
        return;
      }
      Clear();
      isStarted := 0;
      list.Stop(now);
    }

    method Unite(frame: Frame)
      requires Valid()
      modifies this, list, list.observer, RegionsOf(list.observer)
      ensures Valid()
      ensures forall i :: 0 <= i < |list.observer| ==>
        View(i) == R.StageNext(list.observer[i].settings, old(View(i)), R.UniteFrame(frame))
    {
      hide RegionsOf, R.Observing;
      last := frame.timestamp;
      list.Observe(frame, false);
    }
  }
}
