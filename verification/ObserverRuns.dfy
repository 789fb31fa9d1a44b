/** Observers started, fed and stopped by a tracking stage. */
module ObserverRuns {
  import opened Common
  import opened Regions
  import opened Observer
  import opened RegionRuns

  /** `isStarted` is -1 before the first start, 1 while started and 0 once stopped. */
  datatype State = State(isStarted: int, isStalled: int, timestamp: nat, regions: seq<Region>)

  datatype Event =
    | Observe(frame: Frame, force: bool)
    | Start(now: nat, startRects: bool)
    | Stop(now: nat)
    | ResetAll(now: nat)
    | Stall
    | Resume

  /** A difference of timestamps as a signed 64-bit number. */
  function SignedSince(now: nat, before: nat): int {
    var d := Since(now, before);
    if d >= U64 / 2 then d - U64 else d
  }

  /** Frames that come too fast are dropped, unless they are forced. */
  predicate Accepts(c: Settings, s: State, f: Frame, force: bool) {
    var timeDiff := SignedSince(f.timestamp, s.timestamp);
    s.isStarted == 1 && (force || c.maxFPS <= 0.0 || timeDiff <= 0 || 1000.0 / timeDiff as real <= c.maxFPS)
  }

  ghost predicate Fits(c: Settings, s: State) {
    |s.regions| == NumRects(c.rects)
  }

  ghost function ObservedAll(c: Settings, regions: seq<Region>, f: Frame): (r: seq<Region>)
    requires |regions| == NumRects(c.rects)
    ensures |r| == |regions|
  {
    seq(|regions|, i requires 0 <= i < |regions| => Observed(c, i, regions[i], f))
  }

  function RestartedAll(regions: seq<Region>): seq<Region> {
    seq(|regions|, i requires 0 <= i < |regions| => Restarted(regions[i]))
  }

  function ClearedAll(regions: seq<Region>): seq<Region> {
    seq(|regions|, i requires 0 <= i < |regions| => Cleared(regions[i]))
  }

  ghost function Observing(c: Settings, s: State, f: Frame, force: bool): State
    requires Fits(c, s)
  {
    if Accepts(c, s, f, force) then s.(timestamp := f.timestamp, regions := ObservedAll(c, s.regions, f)) else s
  }

  function Starting(c: Settings, s: State, now: nat, startRects: bool): State {
    if s.isStarted == 1 then s
    else State(1, 0, if c.reporting then now else s.timestamp,
               if startRects then RestartedAll(s.regions) else s.regions)
  }

  /** An observer that is always on does not stop. */
  function Stopping(c: Settings, s: State, now: nat): State {
    if s.isStarted == 0 || c.alwaysOn then s
    else s.(isStarted := 0, isStalled := 0, timestamp := if c.reporting then now else s.timestamp)
  }

  /** A reset stops and starts an observer that is started, and empties the regions in between. */
  function Resetting(c: Settings, s: State, now: nat): State {
    var stopped := if s.isStarted == 1 then Stopping(c, s.(isStarted := -1), now) else s;
    var cleared := stopped.(regions := ClearedAll(stopped.regions));
    if s.isStarted == 1 then Starting(c, cleared.(isStarted := -1), now, false) else cleared
  }

  function Stalling(s: State): State {
    s.(isStalled := 1)
  }

  function Resuming(s: State): State {
    if s.isStalled == 0 then s else s.(isStalled := 0, regions := RestartedAll(s.regions))
  }

  ghost function Next(c: Settings, s: State, e: Event): State
    requires Fits(c, s)
  {
    match e
    case Observe(f, force) => Observing(c, s, f, force)
    case Start(now, startRects) => Starting(c, s, now, startRects)
    case Stop(now) => Stopping(c, s, now)
    case ResetAll(now) => Resetting(c, s, now)
    case Stall => Stalling(s)
    case Resume => Resuming(s)
  }

  ghost function Runs(c: Settings, s: State, events: seq<Event>): (r: State)
    requires Fits(c, s)
    ensures Fits(c, r)
  {
    if events == [] then s else Next(c, Runs(c, s, events[..|events| - 1]), events[|events| - 1])
  }

  // ---- every region sees the same run ----

  /** What an event does to each region. */
  ghost function ActsOf(c: Settings, s: State, e: Event): seq<Act> {
    match e
    case Observe(f, force) => if Accepts(c, s, f, force) then [Seen(f)] else []
    case Start(_, startRects) => if s.isStarted != 1 && startRects then [Restart] else []
    case Stop(_) => []
    case ResetAll(_) => [Clear]
    case Stall => []
    case Resume => if s.isStalled != 0 then [Restart] else []
  }

  ghost function Acts(c: Settings, s: State, events: seq<Event>): seq<Act>
    requires Fits(c, s)
  {
    if events == [] then []
    else
      var before := events[..|events| - 1];
      Acts(c, s, before) + ActsOf(c, Runs(c, s, before), events[|events| - 1])
  }

  lemma ActRuns(c: Settings, i: nat, r: Region, acts: seq<Act>, a: Act)
    requires i < NumRects(c.rects)
    ensures Run(c, i, r, acts + [a]) == After(c, i, Run(c, i, r, acts), a)
  {
    hide After;
    assert (acts + [a])[..|acts + [a]| - 1] == acts;
  }

  lemma RegionOfNext(c: Settings, s: State, e: Event, i: nat)
    requires Fits(c, s) && i < NumRects(c.rects)
    ensures var acts := ActsOf(c, s, e);
      |acts| <= 1 && Next(c, s, e).regions[i] == if acts == [] then s.regions[i] else After(c, i, s.regions[i], acts[0])
  {
    hide Observed, Accepts;
  }

  /** The regions of an observer run side by side, over the frames that were not dropped. */
  lemma {:induction false} RegionsRunAlike(c: Settings, s: State, events: seq<Event>, i: nat)
    requires Fits(c, s) && i < NumRects(c.rects)
    ensures Runs(c, s, events).regions[i] == Run(c, i, s.regions[i], Acts(c, s, events))
  {
    hide ActsOf, Next, After, Run;
    if events == [] {
      NoActs(c, i, s.regions[i]);
    } else {
      var before := events[..|events| - 1];
      RegionsRunAlike(c, s, before, i);
      var now, e := Runs(c, s, before), events[|events| - 1];
      var acts := ActsOf(c, now, e);
      RegionOfNext(c, now, e, i);
      if acts == [] {
        assert Acts(c, s, before) + acts == Acts(c, s, before);
      } else {
        assert acts == [acts[0]];
        ActRuns(c, i, s.regions[i], Acts(c, s, before), acts[0]);
      }
    }
  }

  lemma NoActs(c: Settings, i: nat, r: Region)
    requires i < NumRects(c.rects)
    ensures Run(c, i, r, []) == r
  {
  }

  ghost predicate Unused(c: Settings, s: State) {
    Fits(c, s) && s.isStarted == -1 && s.isStalled == 0 && forall i :: 0 <= i < |s.regions| ==> Fresh(s.regions[i])
  }

  /** Whatever is asked of an observer, since the last reset the reports of each object in each of its regions form
      visits, and the object is in the region exactly while its last visit is unfinished. Over the whole run they do iff
      nothing is reported of the object any more after a reset found it in the region. */
  lemma VisitsOfAnObserver(c: Settings, s: State, events: seq<Event>, i: nat, x: int)
    requires Unused(c, s) && i < NumRects(c.rects)
    ensures var h := History(c, i, s.regions[i], Acts(c, s, events), x);
      Alternates(h) && (x in Runs(c, s, events).regions[i].objects <==> Present(h))
    ensures var h, acts := FullHistory(c, i, s.regions[i], Acts(c, s, events), x), Acts(c, s, events);
      var cut := Interrupted(c, i, s.regions[i], acts, x);
      Alternates(h) <==> cut.None? || cut.value == |h|
  {
    hide Alternates, History, FullHistory, Interrupted, Acts, Runs;
    assert Fresh(s.regions[i]);
    RegionsRunAlike(c, s, events, i);
    ReportsAlternate(c, i, s.regions[i], Acts(c, s, events), x);
    ResetsInterrupt(c, i, s.regions[i], Acts(c, s, events), x);
  }

  /** An observer that was stopped, and is not always on, sees no frame until it is started again, be it forced. */
  lemma {:induction false} StoppedSeesNothing(c: Settings, s: State, now: nat, events: seq<Event>)
    requires Fits(c, s) && !c.alwaysOn && forall k :: 0 <= k < |events| ==> !events[k].Start?
    ensures Runs(c, Stopping(c, s, now), events).isStarted == 0
    ensures var acts := Acts(c, Stopping(c, s, now), events); forall k :: 0 <= k < |acts| ==> !acts[k].Seen?
  {
    hide SignedSince, Observed;
    if events != [] {
      var stopped, before := Stopping(c, s, now), events[..|events| - 1];
      StoppedSeesNothing(c, s, now, before);
      var more := ActsOf(c, Runs(c, stopped, before), events[|events| - 1]);
      assert forall k :: 0 <= k < |more| ==> !more[k].Seen?;
      assert Acts(c, stopped, events) == Acts(c, stopped, before) + more;
    }
  }

  // ---- the stage ----

  /** A stage with its list of observers, one of them in view; `last` is the time of the last frame handed out. */
  datatype Stage = Stage(isStarted: int, listStarted: int, last: nat, observer: State)

  datatype StageEvent =
    | StartStage(now: nat)
    | StartAlways(now: nat)
    | StopStage(now: nat)
    | ClearStage
    | UniteFrame(frame: Frame)
    | ResetList(now: nat)

  /** The list passes frames to observers that are started or always on. */
  ghost function HandedOut(c: Settings, s: State, f: Frame, force: bool): State
    requires Fits(c, s)
  {
    if s.isStarted == 1 || c.alwaysOn then Observing(c, s, f, force) else s
  }

  ghost function StageNext(c: Settings, st: Stage, e: StageEvent): (r: Stage)
    requires Fits(c, st.observer)
    ensures Fits(c, r.observer)
  {
    match e
    case StartStage(now) =>
      if st.isStarted == 1 then st
      else if st.listStarted == 1 then st.(isStarted := 1)
      else Stage(1, 1, st.last, Starting(c, st.observer, now, true))
    case StartAlways(now) => if c.alwaysOn then st.(observer := Starting(c, st.observer, now, true)) else st
    case StopStage(now) =>
      if st.isStarted == 0 then st
      else
        var drained := HandedOut(c, st.observer, Frame(st.last, map[]), true);
        if st.listStarted == 0 then st.(isStarted := 0, observer := drained)
        else Stage(0, 0, st.last, Stopping(c, drained, now))
    case ClearStage => st.(observer := HandedOut(c, st.observer, Frame(st.last, map[]), true))
    case UniteFrame(f) => st.(last := f.timestamp, observer := HandedOut(c, st.observer, f, false))
    case ResetList(now) => st.(observer := Resetting(c, st.observer, now))
  }

  ghost function StageRun(c: Settings, st: Stage, events: seq<StageEvent>): (r: Stage)
    requires Fits(c, st.observer)
    ensures Fits(c, r.observer)
  {
    if events == [] then st else StageNext(c, StageRun(c, st, events[..|events| - 1]), events[|events| - 1])
  }

  /** What the stage asks of the observer. */
  ghost function EventsOf(c: Settings, st: Stage, e: StageEvent): seq<Event> {
    match e
    case StartStage(now) => if st.isStarted == 1 || st.listStarted == 1 then [] else [Start(now, true)]
    case StartAlways(now) => if c.alwaysOn then [Start(now, true)] else []
    case StopStage(now) =>
      if st.isStarted == 0 then []
      else
        (if st.observer.isStarted == 1 || c.alwaysOn then [Observe(Frame(st.last, map[]), true)] else []) +
        if st.listStarted == 0 then [] else [Stop(now)]
    case ClearStage => if st.observer.isStarted == 1 || c.alwaysOn then [Observe(Frame(st.last, map[]), true)] else []
    case UniteFrame(f) => if st.observer.isStarted == 1 || c.alwaysOn then [Observe(f, false)] else []
    case ResetList(now) => [ResetAll(now)]
  }

  ghost function Events(c: Settings, st: Stage, events: seq<StageEvent>): seq<Event>
    requires Fits(c, st.observer)
  {
    if events == [] then []
    else
      var before := events[..|events| - 1];
      Events(c, st, before) + EventsOf(c, StageRun(c, st, before), events[|events| - 1])
  }

  lemma EventRuns(c: Settings, s: State, events: seq<Event>, e: Event)
    requires Fits(c, s)
    ensures Runs(c, s, events + [e]) == Next(c, Runs(c, s, events), e)
  {
    hide Next;
    assert (events + [e])[..|events + [e]| - 1] == events;
  }

  lemma ObserverOfNext(c: Settings, st: Stage, e: StageEvent)
    requires Fits(c, st.observer)
    ensures var more, r := EventsOf(c, st, e), StageNext(c, st, e).observer;
      && |more| <= 2
      && (more == [] ==> r == st.observer)
      && (|more| == 1 ==> r == Next(c, st.observer, more[0]))
      && (|more| == 2 ==>
            Fits(c, Next(c, st.observer, more[0])) && r == Next(c, Next(c, st.observer, more[0]), more[1]))
  {
    hide ObservedAll, Accepts, Starting, Stopping, Resetting;
  }

  /** The observer of a stage runs over what the stage asks of it. */
  lemma {:induction false} StageDrivesObserver(c: Settings, st: Stage, events: seq<StageEvent>)
    requires Fits(c, st.observer)
    ensures StageRun(c, st, events).observer == Runs(c, st.observer, Events(c, st, events))
  {
    hide EventsOf, StageNext, Next, Fits;
    if events != [] {
      var before := events[..|events| - 1];
      StageDrivesObserver(c, st, before);
      var now, e := StageRun(c, st, before), events[|events| - 1];
      var asked, more := Events(c, st, before), EventsOf(c, now, e);
      ObserverOfNext(c, now, e);
      if more == [] {
        assert asked + more == asked;
      } else {
        EventRuns(c, st.observer, asked, more[0]);
        if |more| == 2 {
          assert asked + more == (asked + [more[0]]) + [more[1]];
          EventRuns(c, st.observer, asked + [more[0]], more[1]);
        } else {
          assert more == [more[0]];
        }
      }
    }
  }

  ghost predicate Drained(s: State) {
    forall i :: 0 <= i < |s.regions| ==> s.regions[i].objects == map[]
  }

  ghost predicate NewStage(c: Settings, st: Stage) {
    st.isStarted == -1 && st.listStarted == -1 && Unused(c, st.observer)
  }

  /** A forced frame without objects empties every region of a started observer. */
  lemma ForcedDrain(c: Settings, s: State, timestamp: nat)
    requires Fits(c, s) && s.isStarted == 1
    ensures Drained(Observing(c, s, Frame(timestamp, map[]), true))
    ensures Observing(c, s, Frame(timestamp, map[]), true).isStarted == 1
  {
    forall i | 0 <= i < |s.regions| ensures Observed(c, i, s.regions[i], Frame(timestamp, map[])).objects == map[] {
      EmptyFrameDrains(c, i, s.regions[i], timestamp);
    }
  }

  /** The observer is not in use: the stage is stopped or, unless the observer is always on, was not started yet. */
  ghost predicate Ended(c: Settings, st: Stage) {
    st.isStarted == 0 || (st.isStarted == -1 && !c.alwaysOn)
  }

  /** An observer that is not always on is started exactly while the stage is; all observers are empty while they are
      not started, and while they are not in use. */
  ghost predicate Session(c: Settings, st: Stage) {
    && -1 <= st.isStarted <= 1
    && (!c.alwaysOn ==> (st.isStarted == 1 <==> st.observer.isStarted == 1))
    && (!c.alwaysOn ==> (st.isStarted == 1 <==> st.listStarted == 1))
    && (!c.alwaysOn && st.isStarted == 0 ==> st.listStarted == 0)
    && (st.observer.isStarted != 1 ==> Drained(st.observer))
    && (Ended(c, st) ==> Drained(st.observer))
  }

  /** A stopped stage tracks nothing, so that its frames are empty; only observers that are always on see them. */
  ghost predicate EmptyWhileStopped(c: Settings, st: Stage, events: seq<StageEvent>)
    requires Fits(c, st.observer)
  {
    events == [] ||
    var before, last := events[..|events| - 1], events[|events| - 1];
    && EmptyWhileStopped(c, st, before)
    && (c.alwaysOn && StageRun(c, st, before).isStarted == 0 && last.UniteFrame? ==> last.frame.objects == map[])
  }

  lemma EmptyFrameKeepsDrained(c: Settings, s: State, f: Frame, force: bool)
    requires Fits(c, s) && f.objects == map[] && Drained(s)
    ensures Drained(HandedOut(c, s, f, force))
  {
    hide Observed;
    assert f == Frame(f.timestamp, map[]);
    forall i | 0 <= i < |s.regions| ensures Observed(c, i, s.regions[i], f).objects == map[] {
      EmptyFrameDrains(c, i, s.regions[i], f.timestamp);
    }
  }

  lemma NextKeepsSession(c: Settings, st: Stage, e: StageEvent)
    requires Fits(c, st.observer) && Session(c, st)
    requires c.alwaysOn && st.isStarted == 0 && e.UniteFrame? ==> e.frame.objects == map[]
    ensures Session(c, StageNext(c, st, e))
  {
    hide Observed, SignedSince;
    if st.observer.isStarted == 1 {
      ForcedDrain(c, st.observer, st.last);
    }
    if Drained(st.observer) {
      EmptyFrameKeepsDrained(c, st.observer, Frame(st.last, map[]), true);
    }
    if e.UniteFrame? && e.frame.objects == map[] && Drained(st.observer) {
      EmptyFrameKeepsDrained(c, st.observer, e.frame, false);
    }
  }

  lemma {:induction false} SessionsAreKept(c: Settings, st: Stage, events: seq<StageEvent>)
    requires NewStage(c, st) && EmptyWhileStopped(c, st, events)
    ensures Session(c, StageRun(c, st, events))
  {
    hide Session, StageNext;
    if events == [] {
      NewIsSession(c, st);
    } else {
      SessionsAreKept(c, st, events[..|events| - 1]);
      NextKeepsSession(c, StageRun(c, st, events[..|events| - 1]), events[|events| - 1]);
    }
  }

  lemma NewIsSession(c: Settings, st: Stage)
    requires NewStage(c, st)
    ensures Session(c, st)
  {
  }

  /** Whenever an observer is not in use, every object that entered one of its regions has left it again: since the last
      reset its Enters equal its Leaves, and over the whole run they do apart from visits that a reset cut off.  */
  lemma EveryVisitEnds(c: Settings, st: Stage, events: seq<StageEvent>, i: nat, x: int)
    requires NewStage(c, st) && EmptyWhileStopped(c, st, events) && i < NumRects(c.rects)
    ensures var start, acts := st.observer.regions[i], Acts(c, st.observer, Events(c, st, events));
      var h, full := History(c, i, start, acts, x), FullHistory(c, i, start, acts, x);
      Ended(c, StageRun(c, st, events)) ==>
        Number(h, Enter) == Number(h, Leave) &&
          Number(full, Enter) == Number(full, Leave) + Interruptions(c, i, start, acts, x)
  {
    hide StageRun, Events, History, FullHistory, Interruptions, Interrupted, Acts, Number, Alternates;
    if Ended(c, StageRun(c, st, events)) {
      var asked := Events(c, st, events);
      SessionDrains(c, st, events, i);
      StageDrivesObserver(c, st, events);
      VisitsOfAnObserver(c, st.observer, asked, i, x);
      EntersEqualLeaves(History(c, i, st.observer.regions[i], Acts(c, st.observer, asked), x));
      RegionsRunAlike(c, st.observer, asked, i);
      EntersAreAccountedFor(c, i, st.observer.regions[i], Acts(c, st.observer, asked), x);
    }
  }

  lemma SessionDrains(c: Settings, st: Stage, events: seq<StageEvent>, i: nat)
    requires NewStage(c, st) && EmptyWhileStopped(c, st, events) && i < NumRects(c.rects)
    requires Ended(c, StageRun(c, st, events))
    ensures StageRun(c, st, events).observer.regions[i].objects == map[]
  {
    hide StageRun;
    SessionsAreKept(c, st, events);
  }

  /** An observer that is always on is emptied by stopping too, and stays started. */
  lemma StoppingDrains(c: Settings, st: Stage, now: nat)
    requires Fits(c, st.observer) && st.isStarted != 0 && st.observer.isStarted == 1
    ensures var r := StageNext(c, st, StopStage(now)).observer;
      Drained(r) && (c.alwaysOn ==> r.isStarted == 1)
  {
    hide Observed;
    ForcedDrain(c, st.observer, st.last);
  }

  /** A frame that is not forced is dropped iff it comes sooner than the frame rate allows: this is why the frame that
      empties the regions is forced. */
  lemma FastFramesAreDropped(c: Settings, s: State, f: Frame)
    requires Fits(c, s) && s.isStarted == 1 && c.maxFPS > 0.0
    requires 0 < f.timestamp - s.timestamp < U64 / 2
    ensures !Accepts(c, s, f, false) <==> Times((f.timestamp - s.timestamp) as real, c.maxFPS) < 1000.0
  {
    var timeDiff := f.timestamp - s.timestamp;
    assert SignedSince(f.timestamp, s.timestamp) == timeDiff;
    QuotientBound(timeDiff as real, c.maxFPS);
    assert Accepts(c, s, f, false) <==> 1000.0 / timeDiff as real <= c.maxFPS;
  }

  lemma QuotientBound(d: real, fps: real)
    requires d > 0.0
    ensures 1000.0 / d <= fps <==> 1000.0 <= Times(d, fps)
  {
    var q := 1000.0 / d;
    assert q * d == 1000.0;
    if q <= fps {
      Scale(q, fps, d);
    } else {
      ScaleStrictly(fps, q, d);
    }
  }

  lemma Scale(a: real, b: real, d: real)
    requires a <= b && d > 0.0
    ensures a * d <= d * b
  {
  }

  lemma ScaleStrictly(a: real, b: real, d: real)
    requires a < b && d > 0.0
    ensures d * a < b * d
  {
  }

  // ---- clocks ----

  /** Differences of times are taken as they are, back or forth, as long as they are less than 2^63. */
  lemma SignedSinceIs(now: nat, before: nat)
    requires now < U64 && before < U64 && -0x8000_0000_0000_0000 <= now - before < 0x8000_0000_0000_0000
    ensures SignedSince(now, before) == now - before
  {
  }

  /** A started observer takes every frame that is forced, that is not later than the last one, or if it has no
      limit; one that is not started takes none. */
  lemma OtherFramesAreTaken(c: Settings, s: State, f: Frame, force: bool)
    requires f.timestamp < U64 && s.timestamp < U64 && -(U64 / 2) < f.timestamp - s.timestamp < U64 / 2
    ensures s.isStarted != 1 ==> !Accepts(c, s, f, force)
    ensures s.isStarted == 1 && (force || c.maxFPS <= 0.0 || f.timestamp <= s.timestamp) ==> Accepts(c, s, f, force)
  {
    SignedSinceIs(f.timestamp, s.timestamp);
    hide SignedSince;
  }

  /** What starting and stopping leave: a reporting observer takes the time of the call as that of its last frame;
      counts start again only if asked for; stopping keeps the regions as they are. */
  lemma StartsAndStops(c: Settings, s: State, now: nat)
    ensures s.isStarted == 1 ==> Starting(c, s, now, true) == s == Starting(c, s, now, false)
    ensures s.isStarted != 1 ==> forall startRects ::
      var r := Starting(c, s, now, startRects);
      r.isStarted == 1 && r.isStalled == 0 && (!startRects ==> r.regions == s.regions)
    ensures s.isStarted != 1 ==> forall startRects ::
      Starting(c, s, now, startRects).timestamp == if c.reporting then now else s.timestamp
    ensures s.isStarted != 1 ==> |Starting(c, s, now, true).regions| == |s.regions|
    ensures s.isStarted != 1 ==>
      forall k :: 0 <= k < |s.regions| ==> Starting(c, s, now, true).regions[k] == Restarted(s.regions[k])
    ensures var r := Stopping(c, s, now);
      && r.regions == s.regions && (c.alwaysOn || s.isStarted == 0 ==> r == s)
      && (!c.alwaysOn && s.isStarted != 0 ==>
            r.isStarted == 0 && r.isStalled == 0 && r.timestamp == if c.reporting then now else s.timestamp)
  {
    hide Restarted;
  }

  /** A reset empties all regions and leaves an observer started iff it was; only a stalled observer resumes. */
  lemma ResetsAndResumes(c: Settings, s: State, now: nat)
    ensures var r := Resetting(c, s, now);
      && r.isStarted == s.isStarted && |r.regions| == |s.regions|
      && forall k :: 0 <= k < |s.regions| ==> r.regions[k] == Cleared(s.regions[k])
    ensures s.isStalled == 0 ==> Resuming(s) == s
    ensures s.isStalled != 0 ==>
      var r := Resuming(s);
      && r.isStalled == 0 && r.isStarted == s.isStarted && r.timestamp == s.timestamp && |r.regions| == |s.regions|
      && forall k :: 0 <= k < |s.regions| ==> r.regions[k] == Restarted(s.regions[k])
    ensures Stalling(s).isStalled != 0
  {
    hide Restarted, Cleared;
  }

  /** A frame that is taken is shown to all regions and leaves its time; one that is not changes nothing. */
  lemma FramesAreShown(c: Settings, s: State, f: Frame, force: bool)
    requires Fits(c, s)
    ensures var r := Observing(c, s, f, force);
      && r.isStarted == s.isStarted && r.isStalled == s.isStalled && Fits(c, r)
      && (Accepts(c, s, f, force) ==> r.timestamp == f.timestamp)
      && (Accepts(c, s, f, force) ==>
            forall k :: 0 <= k < |s.regions| ==> r.regions[k] == Observed(c, k, s.regions[k], f))
      && (!Accepts(c, s, f, force) ==> r == s)
  {
    hide Accepts, Observed;
  }

  /** What the calls do to the stage and to its list: both start and stop together, only the first call of two counts,
      and only frames move the clock of the stage. */
  lemma StageCalls(c: Settings, st: Stage, now: nat, f: Frame)
    requires Fits(c, st.observer)
    ensures var r := StageNext(c, st, StartStage(now));
      && r.isStarted == 1 && r.last == st.last && (st.isStarted == 1 ==> r == st)
      && (st.isStarted != 1 ==> r.listStarted == 1 && (st.listStarted == 1 ==> r.observer == st.observer))
    ensures var r := StageNext(c, st, StopStage(now));
      && r.isStarted == 0 && r.last == st.last
      && (if st.isStarted == 0 then r == st else r.listStarted == 0)
    ensures var r := StageNext(c, st, UniteFrame(f));
      r.last == f.timestamp && r.isStarted == st.isStarted && r.listStarted == st.listStarted
    ensures forall e :: e in [StartAlways(now), ClearStage, ResetList(now)] ==>
      var r := StageNext(c, st, e);
      r.last == st.last && r.isStarted == st.isStarted && r.listStarted == st.listStarted
  {
    hide HandedOut, Starting, Stopping, Resetting;
  }
}
