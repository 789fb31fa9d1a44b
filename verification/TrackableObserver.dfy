/** Observers as objects, alone and in a list. */
module TrackableObserver {
  import opened Common
  import opened Regions
  import opened Observer
  import opened RegionObjects
  import R = ObserverRuns

  class TrackableObserver {
    const settings: Settings
    const regions: seq<ObsvObjects>
    var isStarted: int
    var isStalled: int
    var timestamp: nat

    ghost predicate Valid()
      reads this, regions
    {
      && |regions| == NumRects(settings.rects)
      && (forall i, k :: 0 <= i < k < |regions| ==> regions[i] != regions[k])
      && forall i :: 0 <= i < |regions| ==> regions[i].lifespanSum < U64
    }

    ghost function State(): R.State
      reads this, regions
    {
      R.State(isStarted, isStalled, timestamp,
              seq(|regions|, i requires 0 <= i < |regions| reads regions => regions[i].State()))
    }

    constructor (c: Settings)
      ensures Valid() && fresh(regions) && settings == c
      ensures isStarted == -1 && isStalled == 0
      ensures forall i :: 0 <= i < |regions| ==> regions[i].State() == Region(map[], 0, -1, 0, 0, 0, 0, 0, 0, 0)
    {
      var rs: seq<ObsvObjects> := [];
      for i := 0 to NumRects(c.rects)
        invariant |rs| == i && fresh(rs)
        invariant forall j, k :: 0 <= j < k < |rs| ==> rs[j] != rs[k]
        invariant forall k :: 0 <= k < |rs| ==> rs[k].State() == Region(map[], 0, -1, 0, 0, 0, 0, 0, 0, 0)
      {
        var r := new ObsvObjects();
        rs := rs + [r];
      }
      settings, regions, isStarted, isStalled, timestamp := c, rs, -1, 0, 0;
    }

    /** One frame; returns what was reported of each region. */
    method Observe(other: Frame, force: bool) returns (accepted: bool, reports: seq<map<int, Tracked>>)
      requires Valid()
      modifies this`timestamp, regions
      ensures Valid()
      ensures State() == R.Observing(settings, old(State()), other, force)
      ensures accepted <==> R.Accepts(settings, old(State()), other, force)
      ensures accepted && settings.reporting ==> |reports| == |regions|
      ensures accepted && settings.reporting ==>
        forall i :: 0 <= i < |regions| ==> reports[i] == Reported(settings, i, old(regions[i].objects), other)
    {
      hide Updated, Erased, Reported;
      reports := [];
      if isStarted != 1 {
        return false, reports;
      }
      var timeDiff := R.SignedSince(other.timestamp, timestamp);
      if !force && settings.maxFPS > 0.0 && timeDiff > 0 && 1000.0 / timeDiff as real > settings.maxFPS {
        return false, reports;
      }
      timestamp := other.timestamp;
      UpdateAll(other);
      if settings.reporting {
        reports := Report();
      }
      EraseAll();
      forall i | 0 <= i < |regions|
        ensures regions[i].State() == Observed(settings, i, old(regions[i].State()), other)
        ensures Updated(settings, i, old(regions[i].State()), other).objects ==
          Reported(settings, i, old(regions[i].objects), other)
      {
        UpdateReports(settings, i, old(regions[i].State()), other);
      }
      accepted := true;
    }

    method UpdateAll(f: Frame)
      requires Valid()
      modifies regions
      ensures Valid()
      ensures forall i :: 0 <= i < |regions| ==> regions[i].State() == Updated(settings, i, old(regions[i].State()), f)
    {
      hide Updated;
      for i := |regions| downto 0
        invariant Valid()
        invariant forall k :: 0 <= k < i ==> regions[k].State() == old(regions[k].State())
        invariant forall k :: i <= k < |regions| ==>
          regions[k].State() == Updated(settings, k, old(regions[k].State()), f)
      {
        regions[i].Update(settings, i, f);
      }
    }

    method Report() returns (reports: seq<map<int, Tracked>>)
      ensures |reports| == |regions| && forall i :: 0 <= i < |regions| ==> reports[i] == regions[i].objects
    {
      reports := [];
      for i := 0 to |regions|
        invariant |reports| == i && forall k :: 0 <= k < i ==> reports[k] == regions[k].objects
      {
        reports := reports + [regions[i].objects];
      }
    }

    method EraseAll()
      requires Valid()
      modifies regions
      ensures Valid()
      ensures forall i :: 0 <= i < |regions| ==>
        regions[i].State() == old(regions[i].State()).(objects := Erased(old(regions[i].objects)))
    {
      hide Erased;
      for i := |regions| downto 0
        invariant Valid()
        invariant forall k :: 0 <= k < i ==> regions[k].State() == old(regions[k].State())
        invariant forall k :: i <= k < |regions| ==>
          regions[k].State() == old(regions[k].State()).(objects := Erased(old(regions[k].objects)))
      {
        regions[i].EraseLeft();
      }
    }

    /** The counters start again; the objects stay. */
    method StartRects()
      requires Valid()
      modifies regions
      ensures Valid()
      ensures State() == old(State()).(regions := R.RestartedAll(old(State()).regions))
    {
      for i := |regions| downto 0
        invariant Valid()
        invariant forall k :: 0 <= k < i ==> regions[k].State() == old(regions[k].State())
        invariant forall k :: i <= k < |regions| ==> regions[k].State() == Restarted(old(regions[k].State()))
      {
        regions[i].Restart();
      }
    }

    method ResetRects()
      requires Valid()
      modifies regions
      ensures Valid()
      ensures State() == old(State()).(regions := R.ClearedAll(old(State()).regions))
    {
      for i := |regions| downto 0
        invariant Valid()
        invariant forall k :: 0 <= k < i ==> regions[k].State() == old(regions[k].State())
        invariant forall k :: i <= k < |regions| ==> regions[k].State() == Cleared(old(regions[k].State()))
      {
        regions[i].Clear();
      }
    }

    method Start(now: nat, startRects: bool) returns (started: bool)
      requires Valid()
      modifies this, regions
      ensures Valid()
      ensures State() == R.Starting(settings, old(State()), now, startRects) && started == (old(isStarted) != 1)
    {
      if isStarted == 1 {
        return false;
      }
      isStalled := 0;
      isStarted := 1;
      if startRects {
        StartRects();
      }
      ghost var restarted := State().regions;
      if settings.reporting {
        timestamp := now;
      }
      assert State().regions == restarted;
      if !startRects {
        assert restarted == old(State()).regions;
      }
      return true;
    }

    method Stop(now: nat) returns (stopped: bool)
      requires Valid()
      modifies this
      ensures Valid()
      ensures State() == R.Stopping(settings, old(State()), now) &&
        stopped == (old(isStarted) != 0 && !settings.alwaysOn)
    {
      if isStarted == 0 || settings.alwaysOn {
        return false;
      }
      isStalled := 0;
      isStarted := 0;
      if settings.reporting {
        timestamp := now;
      }
      return true;
    }

    method ResetAll(now: nat)
      requires Valid()
      modifies this, regions
      ensures Valid()
      ensures State() == R.Resetting(settings, old(State()), now)
    {
      var started := isStarted;
      if started == 1 {
        isStarted := -1;
        var _ := Stop(now);
      }
      ResetRects();
      ghost var cleared := State().regions;
      if started == 1 {
        isStarted := -1;
        assert State().regions == cleared;
        var _ := Start(now, false);
      }
    }

    method Stall()
      requires Valid()
      modifies this`isStalled
      ensures Valid() && State() == R.Stalling(old(State()))
    {
      isStalled := 1;
    }

    method Resume()
      requires Valid()
      modifies this`isStalled, regions
      ensures Valid() && State() == R.Resuming(old(State()))
    {
      if isStalled == 0 {
        return;
      }
      isStalled := 0;
      StartRects();
    }
  }

  lemma UpdateReports(c: Settings, i: nat, r: Region, f: Frame)
    requires i < NumRects(c.rects)
    ensures Updated(c, i, r, f).objects == Reported(c, i, r.objects, f)
    ensures Observed(c, i, r, f) == Updated(c, i, r, f).(objects := Erased(Updated(c, i, r, f).objects))
  {
    hide Reported, Erased;
  }
}
