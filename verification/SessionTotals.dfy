/** What the counters of a region say at the end of a session. */
module SessionTotals {
  import opened Common
  import opened Regions
  import opened Observer
  import opened RegionRuns
  import opened RegionCounters
  import opened ObserverRuns

  /** The frames of a run of a stage, stamped and in order of time. */
  ghost predicate InOrder(events: seq<StageEvent>) {
    events == [] ||
    var last := events[|events| - 1];
    && InOrder(events[..|events| - 1])
    && (last.UniteFrame? ==> StampedFrame(last.frame) && LastFrame(events[..|events| - 1]) <= last.frame.timestamp)
  }

  ghost function LastFrame(events: seq<StageEvent>): nat {
    if events == [] then 0
    else if events[|events| - 1].UniteFrame? then events[|events| - 1].frame.timestamp
    else LastFrame(events[..|events| - 1])
  }

  lemma {:induction false} LastIsLastFrame(c: Settings, st: Stage, events: seq<StageEvent>)
    requires Fits(c, st.observer) && st.last == 0
    ensures StageRun(c, st, events).last == LastFrame(events)
  {
    hide HandedOut, Starting, Stopping, Resetting;
    if events != [] {
      LastIsLastFrame(c, st, events[..|events| - 1]);
    }
  }

  /** One more thing asked of an observer keeps its clock, if it is no frame or one that is not earlier. */
  lemma OneMoreEvent(c: Settings, s: State, asked: seq<Event>, e: Event, now: nat)
    requires Fits(c, s) && Clocked(Acts(c, s, asked)) && LastTime(Acts(c, s, asked)) <= now
    requires e.Observe? ==> StampedFrame(e.frame) && e.frame.timestamp == now
    ensures Clocked(Acts(c, s, asked + [e])) && LastTime(Acts(c, s, asked + [e])) <= now
  {
    hide *;
    var acts, added := Acts(c, s, asked), ActsOf(c, Runs(c, s, asked), e);
    MoreActs(c, s, asked, e);
    ActsOfEvent(c, Runs(c, s, asked), e);
    if added == [] {
      assert acts + added == acts;
    } else {
      assert added == [added[0]];
      OneMoreAct(acts, added[0], now);
    }
  }

  lemma MoreActs(c: Settings, s: State, asked: seq<Event>, e: Event)
    requires Fits(c, s)
    ensures Acts(c, s, asked + [e]) == Acts(c, s, asked) + ActsOf(c, Runs(c, s, asked), e)
  {
    hide ActsOf, Runs;
    var more := asked + [e];
    assert more[..|more| - 1] == asked;
  }

  lemma ActsOfEvent(c: Settings, s: State, e: Event)
    ensures var acts := ActsOf(c, s, e);
      |acts| <= 1 && (acts != [] && acts[0].Seen? ==> e.Observe? && acts[0].frame == e.frame)
  {
    hide Accepts;
  }

  lemma OneMoreAct(acts: seq<Act>, a: Act, now: nat)
    requires Clocked(acts) && LastTime(acts) <= now
    requires a.Seen? ==> StampedFrame(a.frame) && a.frame.timestamp == now
    ensures Clocked(acts + [a]) && LastTime(acts + [a]) <= now
  {
    hide StampedFrame;
    var more := acts + [a];
    assert more[..|more| - 1] == acts;
  }

  lemma EmptyFrameIsStamped(t: nat)
    requires t < U64
    ensures StampedFrame(Frame(t, map[]))
  {
  }

  lemma {:induction false} LastFrameIsStamped(events: seq<StageEvent>)
    requires InOrder(events)
    ensures LastFrame(events) < U64
  {
    if events != [] {
      LastFrameIsStamped(events[..|events| - 1]);
    }
  }

  /** With frames in order of time, so are the frames that reach an observer, the empty ones that drain it included. */
  lemma {:induction false} ClockIsKept(c: Settings, st: Stage, events: seq<StageEvent>)
    requires NewStage(c, st) && st.last == 0 && InOrder(events)
    ensures var acts := Acts(c, st.observer, Events(c, st, events));
      Clocked(acts) && LastTime(acts) <= LastFrame(events)
  {
    hide StampedFrame, Acts, Clocked, LastTime, NewStage, StageNext;
    StageFits(c, st);
    if events == [] {
      NoActsYet(c, st.observer);
    } else {
      var before := events[..|events| - 1];
      ClockIsKept(c, st, before);
      LastIsLastFrame(c, st, before);
      LastFrameIsStamped(before);
      var now, e := StageRun(c, st, before), events[|events| - 1];
      var asked, more := Events(c, st, before), EventsOf(c, now, e);
      EmptyFrameIsStamped(now.last);
      var t := LastFrame(events);
      if more == [] {
        assert asked + more == asked;
      } else {
        OneMoreEvent(c, st.observer, asked, more[0], t);
        if |more| == 2 {
          assert asked + more == (asked + [more[0]]) + [more[1]];
          OneMoreEvent(c, st.observer, asked + [more[0]], more[1], t);
        } else {
          assert more == [more[0]];
        }
      }
    }
  }

  lemma StageFits(c: Settings, st: Stage)
    requires NewStage(c, st)
    ensures Fits(c, st.observer) && forall i :: 0 <= i < NumRects(c.rects) ==> Fresh(st.observer.regions[i])
  {
  }

  lemma NoActsYet(c: Settings, s: State)
    requires Fits(c, s)
    ensures Clocked(Acts(c, s, [])) && LastTime(Acts(c, s, [])) == 0
  {
  }

  /** Whenever an observer is not in use, with frames in order of time: the counters of every region count what was
      reported since the last restart, and `switchDurationSum` is the whole time the region was occupied. */
  lemma TotalsOfASession(c: Settings, st: Stage, events: seq<StageEvent>, i: nat)
    requires NewStage(c, st) && st.last == 0 && InOrder(events) && EmptyWhileStopped(c, st, events)
    requires i < NumRects(c.rects) && Ended(c, StageRun(c, st, events))
    ensures var r := StageRun(c, st, events).observer.regions[i];
      var start, acts := st.observer.regions[i], Acts(c, st.observer, Events(c, st, events));
      && r.validCount == 0
      && r.lifespanCount == LeavesIn(Log(c, i, start, acts))
      && r.lifespanSum == Wrapped(LifetimeIn(Log(c, i, start, acts)))
      && r.gateCount == Gate(r.enterCount, r.leaveCount)
      && r.switchDurationSum == OccupiedTime(Ticks(c, i, start, acts), StartedEmpty(c, i, start, acts))
  {
    hide *;
    StageFits(c, st);
    var acts := Acts(c, st.observer, Events(c, st, events));
    ClockIsKept(c, st, events);
    SessionDrains(c, st, events, i);
    StageDrivesObserver(c, st, events);
    RegionsRunAlike(c, st.observer, Events(c, st, events), i);
    CountersCountReports(c, i, st.observer.regions[i], acts);
    SwitchMeasuresOccupation(c, i, st.observer.regions[i], acts);
  }
}
