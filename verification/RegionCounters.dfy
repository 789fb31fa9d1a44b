/** What the counters of a region add up to. */
module RegionCounters {
  import opened Common
  import opened Regions
  import opened Observer
  import opened RegionRuns

  /** The reports of the region since the counters were last restarted. */
  ghost function Log(c: Settings, i: nat, r: Region, acts: seq<Act>): seq<map<int, Tracked>>
    requires i < NumRects(c.rects)
  {
    if acts == [] then []
    else
      var before := acts[..|acts| - 1];
      match acts[|acts| - 1]
      case Seen(f) => Log(c, i, r, before) + [Reported(c, i, Run(c, i, r, before).objects, f)]
      case Restart => []
      case Clear => []
  }

  ghost function LeavesIn(log: seq<map<int, Tracked>>): nat {
    if log == [] then 0 else LeavesIn(log[..|log| - 1]) + |Having(log[|log| - 1], Leave)|
  }

  ghost function LifetimeIn(log: seq<map<int, Tracked>>): nat {
    if log == [] then 0
    else LifetimeIn(log[..|log| - 1]) + LifespanOf(log[|log| - 1], Having(log[|log| - 1], Leave))
  }

  /** How many of the reports with a status crossed the edge that the region watches. */
  ghost function CrossingsIn(c: Settings, i: nat, log: seq<map<int, Tracked>>, status: Status): nat
    requires i < NumRects(c.rects)
  {
    if log == [] then 0
    else CrossingsIn(c, i, log[..|log| - 1], status) + |Counted(c, i, log[|log| - 1], status)|
  }

  lemma LogGrows(c: Settings, i: nat, log: seq<map<int, Tracked>>, m: map<int, Tracked>)
    requires i < NumRects(c.rects)
    ensures LeavesIn(log + [m]) == LeavesIn(log) + |Having(m, Leave)|
    ensures LifetimeIn(log + [m]) == LifetimeIn(log) + LifespanOf(m, Having(m, Leave))
    ensures CrossingsIn(c, i, log + [m], Enter) == CrossingsIn(c, i, log, Enter) + |Counted(c, i, m, Enter)|
    ensures CrossingsIn(c, i, log + [m], Leave) == CrossingsIn(c, i, log, Leave) + |Counted(c, i, m, Leave)|
  {
    assert (log + [m])[..|log + [m]| - 1] == log;
  }

  ghost predicate CountersOk(c: Settings, i: nat, r: Region, log: seq<map<int, Tracked>>)
    requires i < NumRects(c.rects)
  {
    && r.lifespanCount == LeavesIn(log)
    && r.lifespanSum == Wrapped(LifetimeIn(log))
    && r.enterCount == CrossingsIn(c, i, log, Enter)
    && r.leaveCount == CrossingsIn(c, i, log, Leave)
  }

  lemma FrameCounts(c: Settings, i: nat, r: Region, f: Frame, log: seq<map<int, Tracked>>)
    requires i < NumRects(c.rects) && CountersOk(c, i, r, log)
    ensures CountersOk(c, i, Observed(c, i, r, f), log + [Reported(c, i, r.objects, f)])
  {
    hide Reported, LifespanOf, Counted, Erased, LeavesIn, LifetimeIn, CrossingsIn, Gate, Since, Wrapped;
    var m := Reported(c, i, r.objects, f);
    LogGrows(c, i, log, m);
    SumsWrapTogether(LifetimeIn(log), LifespanOf(m, Having(m, Leave)));
  }

  /** The counters count the reports since the last restart, the gate is what came in less what went out and never
      negative, and the lifespans are summed over the leaves. */
  lemma {:induction false} CountersCountReports(c: Settings, i: nat, r: Region, acts: seq<Act>)
    requires i < NumRects(c.rects) && Fresh(r)
    ensures var now, log := Run(c, i, r, acts), Log(c, i, r, acts);
      && now.lifespanCount == LeavesIn(log)
      && now.lifespanSum == Wrapped(LifetimeIn(log))
      && now.enterCount == CrossingsIn(c, i, log, Enter)
      && now.leaveCount == CrossingsIn(c, i, log, Leave)
      && now.gateCount == Gate(now.enterCount, now.leaveCount)
  {
    hide Observed, Reported;
    FreshIsOk(r);
    RunKeepsRegion(c, i, r, acts);
    if acts != [] {
      var before := acts[..|acts| - 1];
      CountersCountReports(c, i, r, before);
      match acts[|acts| - 1]
      case Seen(f) => FrameCounts(c, i, Run(c, i, r, before), f, Log(c, i, r, before));
      case Restart =>
      case Clear =>
    }
  }

  // ---- occupancy ----

  datatype Tick = Tick(time: nat, count: int)

  /** The frames since the counters were last restarted, with the number of objects in the region after each. */
  ghost function Ticks(c: Settings, i: nat, r: Region, acts: seq<Act>): seq<Tick>
    requires i < NumRects(c.rects)
  {
    if acts == [] then []
    else
      match acts[|acts| - 1]
      case Seen(f) => Ticks(c, i, r, acts[..|acts| - 1]) + [Tick(f.timestamp, Run(c, i, r, acts).validCount)]
      case Restart => []
      case Clear => []
  }

  /** The region was empty when the counters were last restarted. */
  ghost predicate StartedEmpty(c: Settings, i: nat, r: Region, acts: seq<Act>)
    requires i < NumRects(c.rects)
  {
    if acts == [] then r.validCount == 0
    else
      match acts[|acts| - 1]
      case Seen(_) => StartedEmpty(c, i, r, acts[..|acts| - 1])
      case Restart => Run(c, i, r, acts[..|acts| - 1]).validCount == 0
      case Clear => true
  }

  /** The region has been empty at some time since the restart. */
  ghost predicate Armed(ticks: seq<Tick>, empty: bool) {
    empty || exists k :: 0 <= k < |ticks| && ticks[k].count == 0
  }

  /** The time the region was occupied, an occupation that a restart fell into left out. */
  ghost function OccupiedTime(ticks: seq<Tick>, empty: bool): nat {
    if |ticks| < 2 then 0
    else
      var before, last := ticks[..|ticks| - 1], ticks[|ticks| - 1];
      OccupiedTime(before, empty) +
      if before[|before| - 1].count > 0 && Armed(before, empty) && before[|before| - 1].time <= last.time
      then last.time - before[|before| - 1].time else 0
  }

  /** The state of the switch after some ticks. */
  ghost predicate SwitchOk(r: Region, ticks: seq<Tick>, empty: bool, now: nat) {
    && r.validCount >= 0 && OccupiedTime(ticks, empty) <= now < U64
    && (ticks == [] ==> r.switchTimestamp == 0 && r.switchDurationSum == 0 && (r.validCount == 0 <==> empty))
    && (ticks != [] ==> ticks[|ticks| - 1].count == r.validCount && ticks[|ticks| - 1].time == now)
    && (r.validCount == 0 ==> r.switchDurationSum == OccupiedTime(ticks, empty))
    && (r.validCount > 0 && !Armed(ticks, empty) ==>
        r.switchTimestamp == 0 && r.switchDurationSum == 0 == OccupiedTime(ticks, empty))
    && (r.validCount > 0 && Armed(ticks, empty) ==>
         0 < r.switchTimestamp <= now && r.switchDurationSum + (now - r.switchTimestamp) == OccupiedTime(ticks, empty))
  }

  /** The switch fields of a region after a frame, given how many objects are in it then. */
  lemma SwitchStep(r: Region, n: Region, ticks: seq<Tick>, empty: bool, now: nat, t: nat)
    requires SwitchOk(r, ticks, empty, now) && now <= t < U64
    requires n.validCount >= 0 && (n.validCount > 0 ==> t > 0)
    requires var since := if r.validCount == 0 then 0 else r.switchTimestamp;
      && n.switchTimestamp == (if n.validCount > 0 && r.validCount <= 0 then t else since)
      && n.switchDurationSum == (if n.validCount == 0 && r.validCount > 0 && since > 0
                                 then Wrapped(r.switchDurationSum + Since(t, since)) else r.switchDurationSum)
    ensures SwitchOk(n, ticks + [Tick(t, n.validCount)], empty, t)
  {
    var more := ticks + [Tick(t, n.validCount)];
    assert more[..|more| - 1] == ticks;
    if n.validCount == 0 {
      assert more[|more| - 1].count == 0;
    }
    assert Armed(more, empty) <==> Armed(ticks, empty) || n.validCount == 0 by {
      if k :| 0 <= k < |ticks| && ticks[k].count == 0 {
        assert more[k].count == 0;
      }
    }
    if ticks != [] && r.validCount == 0 {
      assert ticks[|ticks| - 1].count == 0;
      assert Armed(ticks, empty);
    }
    if r.validCount > 0 && r.switchTimestamp > 0 {
      assert Since(t, r.switchTimestamp) == t - r.switchTimestamp;
    }
  }

  lemma EmptyFrameEmpties(c: Settings, i: nat, r: Region, f: Frame)
    requires i < NumRects(c.rects)
    ensures var n := Observed(c, i, r, f).validCount; n >= 0 && (f.objects == map[] ==> n == 0)
  {
    hide Reported, Erased;
    HoldsWhatIsInside(c, i, r, f);
    var n := Observed(c, i, r, f);
    if f.objects == map[] {
      assert forall id :: id !in n.objects;
      assert n.objects == map[];
    }
  }

  lemma ObservedSwitch(c: Settings, i: nat, r: Region, f: Frame)
    requires i < NumRects(c.rects)
    ensures var n, since := Observed(c, i, r, f), if r.validCount == 0 then 0 else r.switchTimestamp;
      && n.switchTimestamp == (if n.validCount > 0 && r.validCount <= 0 then f.timestamp else since)
      && n.switchDurationSum == (if n.validCount == 0 && r.validCount > 0 && since > 0
                                 then Wrapped(r.switchDurationSum + Since(f.timestamp, since)) else r.switchDurationSum)
  {
    hide Reported, LifespanOf, Counted, Erased, Gate, Since;
  }

  lemma FrameSwitches(c: Settings, i: nat, r: Region, f: Frame, ticks: seq<Tick>, empty: bool, now: nat)
    requires i < NumRects(c.rects) && StampedFrame(f) && now <= f.timestamp
    requires SwitchOk(r, ticks, empty, now)
    ensures var n := Observed(c, i, r, f); SwitchOk(n, ticks + [Tick(f.timestamp, n.validCount)], empty, f.timestamp)
  {
    hide SwitchOk, Observed, Since;
    EmptyFrameEmpties(c, i, r, f);
    ObservedSwitch(c, i, r, f);
    SwitchStep(r, Observed(c, i, r, f), ticks, empty, now, f.timestamp);
  }

  /** The occupied time is the sum over completed occupations, plus the current one as far as it goes. */
  lemma {:induction false} SwitchMeasuresOccupation(c: Settings, i: nat, r: Region, acts: seq<Act>)
    requires i < NumRects(c.rects) && Fresh(r) && Clocked(acts)
    ensures var now, occupied := Run(c, i, r, acts), OccupiedTime(Ticks(c, i, r, acts), StartedEmpty(c, i, r, acts));
      && now.validCount == |now.objects|
      && (now.validCount == 0 ==> now.switchDurationSum == occupied)
      && (now.validCount > 0 && now.switchTimestamp > 0 ==>
          now.switchDurationSum + (LastTime(acts) - now.switchTimestamp) == occupied)
      && (now.validCount > 0 && now.switchTimestamp == 0 ==> now.switchDurationSum == occupied == 0)
  {
    SwitchIsOk(c, i, r, acts);
    FreshIsOk(r);
    RunKeepsRegion(c, i, r, acts);
  }

  lemma FreshIsOk(r: Region)
    requires Fresh(r)
    ensures RegionOk(r)
  {
  }

  lemma {:induction false} SwitchIsOk(c: Settings, i: nat, r: Region, acts: seq<Act>)
    requires i < NumRects(c.rects) && Fresh(r) && Clocked(acts)
    ensures var t := Ticks(c, i, r, acts);
      SwitchOk(Run(c, i, r, acts), t, StartedEmpty(c, i, r, acts), if t == [] then 0 else LastTime(acts))
  {
    hide Observed, SwitchOk, StampedFrame, RegionOk;
    FreshIsOk(r);
    if acts == [] {
      RestartedSwitch(r, true);
    } else {
      var before := acts[..|acts| - 1];
      SwitchIsOk(c, i, r, before);
      RunKeepsRegion(c, i, r, before);
      var now := Run(c, i, r, before);
      match acts[|acts| - 1]
      case Seen(f) => FrameSwitches(c, i, now, f, Ticks(c, i, r, before), StartedEmpty(c, i, r, before),
                                    if Ticks(c, i, r, before) == [] then 0 else LastTime(before));
      case Restart =>
        CountIsSize(now);
        RestartedSwitch(Restarted(now), now.validCount == 0);
      case Clear => RestartedSwitch(Cleared(now), true);
    }
  }

  lemma CountIsSize(r: Region)
    requires RegionOk(r)
    ensures r.validCount >= 0
  {
  }

  lemma RestartedSwitch(r: Region, empty: bool)
    requires r.validCount >= 0 && (r.validCount == 0 <==> empty) && r.switchTimestamp == 0 && r.switchDurationSum == 0
    ensures SwitchOk(r, [], empty, 0)
  {
  }
}
