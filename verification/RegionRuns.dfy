/** A region over whole runs: what is reported of each object, and what the counters count. */
module RegionRuns {
  import opened Common
  import opened Regions
  import opened Observer

  /** What happens to a region: a frame that is not dropped, a restart of the counters, or a reset. */
  datatype Act = Seen(frame: Frame) | Restart | Clear

  ghost function After(c: Settings, i: nat, r: Region, a: Act): Region
    requires i < NumRects(c.rects)
  {
    match a
    case Seen(f) => Observed(c, i, r, f)
    case Restart => Restarted(r)
    case Clear => Cleared(r)
  }

  ghost function Run(c: Settings, i: nat, r: Region, acts: seq<Act>): Region
    requires i < NumRects(c.rects)
  {
    if acts == [] then r else After(c, i, Run(c, i, r, acts[..|acts| - 1]), acts[|acts| - 1])
  }

  ghost predicate Fresh(r: Region) {
    r == Region(map[], 0, -1, 0, 0, 0, 0, 0, 0, 0)
  }

  lemma {:induction false} RunKeepsRegion(c: Settings, i: nat, r: Region, acts: seq<Act>)
    requires i < NumRects(c.rects) && RegionOk(r)
    ensures RegionOk(Run(c, i, r, acts))
  {
    if acts != [] {
      var before := Run(c, i, r, acts[..|acts| - 1]);
      RunKeepsRegion(c, i, r, acts[..|acts| - 1]);
      match acts[|acts| - 1]
      case Seen(f) => ObservingKeepsRegion(c, i, before, f);
      case Restart =>
      case Clear =>
    }
  }

  // ---- the reports of one object ----

  /** A report of an object, with the time of the frame and whether the object was seen to move in it. */
  datatype Report = Report(time: nat, touched: bool, entry: Tracked)

  ghost function ReportOf(c: Settings, i: nat, r: Region, f: Frame, x: int): Report
    requires i < NumRects(c.rects) && x in Reported(c, i, r.objects, f)
  {
    Report(f.timestamp, Inside(c, i, f, x) && f.objects[x].touched, Reported(c, i, r.objects, f)[x])
  }

  /** The reports of object x since the last reset. */
  ghost function History(c: Settings, i: nat, r: Region, acts: seq<Act>, x: int): seq<Report>
    requires i < NumRects(c.rects)
  {
    if acts == [] then []
    else
      var before := acts[..|acts| - 1];
      match acts[|acts| - 1]
      case Seen(f) =>
        var now := Run(c, i, r, before);
        History(c, i, r, before, x) + if x in Reported(c, i, now.objects, f) then [ReportOf(c, i, now, f, x)] else []
      case Restart => History(c, i, r, before, x)
      case Clear => []
  }

  /** The object is in the region according to its last report. */
  ghost predicate Present(h: seq<Report>) {
    h != [] && h[|h| - 1].entry.status != Leave
  }

  /** The pattern (Enter Move* Leave)*, the last visit possibly unfinished. */
  ghost predicate Alternates(h: seq<Report>) {
    && (forall k :: 0 <= k < |h| ==> h[k].entry.status != Invalid)
    && (h != [] ==> h[0].entry.status == Enter)
    && forall k :: 0 < k < |h| ==> (h[k].entry.status == Enter <==> h[k - 1].entry.status == Leave)
  }

  ghost function Number(h: seq<Report>, status: Status): nat {
    if h == [] then 0 else Number(h[..|h| - 1], status) + if h[|h| - 1].entry.status == status then 1 else 0
  }

  /** In the pattern every visit but an unfinished last one has one Enter and one Leave. */
  lemma {:induction false} EntersEqualLeaves(h: seq<Report>)
    requires Alternates(h)
    ensures Number(h, Enter) == Number(h, Leave) + if Present(h) then 1 else 0
  {
    if h != [] {
      EntersEqualLeaves(h[..|h| - 1]);
    }
  }

  /** What one frame adds to the reports of x. */
  lemma FrameReports(c: Settings, i: nat, r: Region, f: Frame, x: int)
    requires i < NumRects(c.rects)
    ensures var m := Reported(c, i, r.objects, f);
      && (x in m <==> x in r.objects || Inside(c, i, f, x))
      && (x in m ==> m[x] == Fate(c, i, r.objects, f, x) && m[x].status != Invalid)
      && (x in m ==> (m[x].status == Leave <==> !Inside(c, i, f, x)) && (m[x].status == Enter <==> x !in r.objects))
    ensures var o := Observed(c, i, r, f).objects;
      && (x in o <==> Inside(c, i, f, x))
      && (x in o ==> o[x] == Fate(c, i, r.objects, f, x))
  {
  }

  lemma AppendAlternates(h: seq<Report>, report: Report)
    requires Alternates(h) && report.entry.status != Invalid
    requires report.entry.status == Enter <==> !Present(h)
    ensures Alternates(h + [report])
  {
  }

  /** Whatever happens, the reports of every object follow the pattern; it is in the region exactly while its last
      visit is unfinished, and is stored as it was last reported. */
  lemma {:induction false} ReportsAlternate(c: Settings, i: nat, r: Region, acts: seq<Act>, x: int)
    requires i < NumRects(c.rects) && r.objects == map[]
    ensures var h, now := History(c, i, r, acts, x), Run(c, i, r, acts);
      && Alternates(h) && (x in now.objects <==> Present(h))
      && (x in now.objects ==> now.objects[x] == h[|h| - 1].entry)
  {
    hide Reported, Fate, Inside, Observed, Alternates, ReportOf;
    if acts == [] {
      NoReports();
    } else {
      var before := acts[..|acts| - 1];
      ReportsAlternate(c, i, r, before, x);
      var now, h := Run(c, i, r, before), History(c, i, r, before, x);
      match acts[|acts| - 1]
      case Seen(f) =>
        FrameReports(c, i, now, f, x);
        if x in Reported(c, i, now.objects, f) {
          var report := ReportOf(c, i, now, f, x);
          ReportIsReported(c, i, now, f, x);
          AppendAlternates(h, report);
        } else {
          assert h + [] == h;
        }
      case Restart =>
      case Clear => NoReports();
    }
  }

  lemma NoReports()
    ensures Alternates([])
  {
  }

  lemma ReportIsReported(c: Settings, i: nat, r: Region, f: Frame, x: int)
    requires i < NumRects(c.rects) && x in Reported(c, i, r.objects, f)
    ensures ReportOf(c, i, r, f, x).entry == Reported(c, i, r.objects, f)[x]
    ensures ReportOf(c, i, r, f, x).time == f.timestamp
  {
  }

  // ---- across resets ----

  /** All reports of object x, those before a reset included. */
  ghost function FullHistory(c: Settings, i: nat, r: Region, acts: seq<Act>, x: int): seq<Report>
    requires i < NumRects(c.rects)
  {
    if acts == [] then []
    else
      var before, now := acts[..|acts| - 1], Run(c, i, r, acts[..|acts| - 1]);
      FullHistory(c, i, r, before, x) +
      if acts[|acts| - 1].Seen? && x in Reported(c, i, now.objects, acts[|acts| - 1].frame)
      then [ReportOf(c, i, now, acts[|acts| - 1].frame, x)] else []
  }

  /** How much had been reported of object x when a reset first found it in the region. */
  ghost function Interrupted(c: Settings, i: nat, r: Region, acts: seq<Act>, x: int): Option<nat>
    requires i < NumRects(c.rects)
  {
    if acts == [] then None
    else
      var before := acts[..|acts| - 1];
      var earlier := Interrupted(c, i, r, before, x);
      if earlier.None? && acts[|acts| - 1].Clear? && x in Run(c, i, r, before).objects
      then Some(|FullHistory(c, i, r, before, x)|) else earlier
  }

  /** Where the first interrupted visit is in the reports h; `inside` says whether the object is in the region. */
  ghost predicate InterruptedAt(h: seq<Report>, cut: Option<nat>, inside: bool) {
    && (inside ==> Present(h)) && (Present(h) && !inside ==> cut.Some?)
    && (cut.Some? ==> cut.value <= |h| && Present(h[..cut.value]) && (inside ==> cut.value < |h|))
    && (Alternates(h) <==> cut.None? || cut.value == |h|)
  }

  lemma AppendedAlternates(h: seq<Report>, report: Report)
    requires Alternates(h + [report])
    ensures Alternates(h) && (report.entry.status == Enter ==> !Present(h))
  {
    var g := h + [report];
    assert forall k :: 0 <= k < |h| ==> h[k] == g[k];
    assert g[|h|] == report;
  }

  lemma NextInterruption(h: seq<Report>, cut: Option<nat>, inside: bool, report: Report)
    requires InterruptedAt(h, cut, inside) && report.entry.status != Invalid
    requires report.entry.status == Enter <==> !inside
    ensures InterruptedAt(h + [report], cut, report.entry.status != Leave)
  {
    hide Alternates;
    var g := h + [report];
    assert cut.Some? ==> g[..cut.value] == h[..cut.value];
    assert cut.Some? && cut.value == |h| ==> h[..cut.value] == h;
    if Alternates(g) {
      AppendedAlternates(h, report);
    } else if Alternates(h) && !(report.entry.status == Enter && Present(h)) {
      AppendAlternates(h, report);
    }
  }

  /** The reports of an object form visits over a whole run iff nothing is reported of it any more after a reset found
      it in the region: a reset takes it out without a Leave, and it can only come back with an Enter.  */
  lemma {:induction false} ResetsInterrupt(c: Settings, i: nat, r: Region, acts: seq<Act>, x: int)
    requires i < NumRects(c.rects) && r.objects == map[]
    ensures var h, cut := FullHistory(c, i, r, acts, x), Interrupted(c, i, r, acts, x);
      && InterruptedAt(h, cut, x in Run(c, i, r, acts).objects)
      && (Alternates(h) <==> cut.None? || cut.value == |h|)
  {
    hide Reported, Fate, Inside, Observed, Alternates, ReportOf;
    if acts == [] {
      NoReports();
    } else {
      var before := acts[..|acts| - 1];
      ResetsInterrupt(c, i, r, before, x);
      var now, h := Run(c, i, r, before), FullHistory(c, i, r, before, x);
      assert h + [] == h;
      match acts[|acts| - 1]
      case Seen(f) =>
        FrameReports(c, i, now, f, x);
        if x in Reported(c, i, now.objects, f) {
          ReportIsReported(c, i, now, f, x);
          NextInterruption(h, Interrupted(c, i, r, before, x), x in now.objects, ReportOf(c, i, now, f, x));
        }
      case Restart =>
      case Clear => assert h[..|h|] == h;
    }
  }

  /** How often a reset found object x in the region. */
  ghost function Interruptions(c: Settings, i: nat, r: Region, acts: seq<Act>, x: int): nat
    requires i < NumRects(c.rects)
  {
    if acts == [] then 0
    else
      var before := acts[..|acts| - 1];
      Interruptions(c, i, r, before, x) + if acts[|acts| - 1].Clear? && x in Run(c, i, r, before).objects then 1 else 0
  }

  /** Over a whole run every Enter is answered by a Leave or ended by a reset, except that of a visit still going on. */
  lemma {:induction false} EntersAreAccountedFor(c: Settings, i: nat, r: Region, acts: seq<Act>, x: int)
    requires i < NumRects(c.rects) && r.objects == map[]
    ensures var h, open := FullHistory(c, i, r, acts, x), if x in Run(c, i, r, acts).objects then 1 else 0;
      Number(h, Enter) == Number(h, Leave) + Interruptions(c, i, r, acts, x) + open
  {
    hide Reported, Fate, Inside, Observed, ReportOf;
    if acts != [] {
      var before := acts[..|acts| - 1];
      EntersAreAccountedFor(c, i, r, before, x);
      var now, h := Run(c, i, r, before), FullHistory(c, i, r, before, x);
      assert h + [] == h;
      match acts[|acts| - 1]
      case Seen(f) =>
        FrameReports(c, i, now, f, x);
        if x in Reported(c, i, now.objects, f) {
          ReportIsReported(c, i, now, f, x);
          var g := h + [ReportOf(c, i, now, f, x)];
          assert g[..|g| - 1] == h;
        }
      case Restart =>
      case Clear =>
    }
  }

  // ---- the length of a visit ----

  /** Objects carry the time of their frame, as the tracker stamps them. */
  ghost predicate StampedFrame(f: Frame) {
    && f.timestamp < U64 && (f.objects != map[] ==> f.timestamp > 0)
    && forall id :: id in f.objects ==> f.objects[id].timestamp == f.timestamp
  }

  ghost function LastTime(acts: seq<Act>): nat {
    if acts == [] then 0
    else if acts[|acts| - 1].Seen? then acts[|acts| - 1].frame.timestamp
    else LastTime(acts[..|acts| - 1])
  }

  /** A run whose clock never goes back. */
  ghost predicate Clocked(acts: seq<Act>) {
    acts == [] ||
    var last := acts[|acts| - 1];
    && Clocked(acts[..|acts| - 1])
    && (last.Seen? ==> StampedFrame(last.frame) && LastTime(acts[..|acts| - 1]) <= last.frame.timestamp)
  }

  /** When the last visit began, according to the reports. */
  ghost function EnterTime(h: seq<Report>): nat {
    if h == [] then 0 else if h[|h| - 1].entry.status == Enter then h[|h| - 1].time else EnterTime(h[..|h| - 1])
  }

  /** When the object last moved in its last visit. */
  ghost function TouchTime(h: seq<Report>): nat {
    if h == [] then 0
    else if h[|h| - 1].entry.status == Enter || h[|h| - 1].touched then h[|h| - 1].time
    else TouchTime(h[..|h| - 1])
  }

  ghost predicate Measured(h: seq<Report>) {
    h != [] ==>
      h[|h| - 1].entry.enter == EnterTime(h) && h[|h| - 1].entry.touched == TouchTime(h) && EnterTime(h) <= TouchTime(h)
  }

  /** A report measures correctly when the one before did. */
  lemma NextIsMeasured(c: Settings, i: nat, r: Region, f: Frame, x: int, h: seq<Report>)
    requires i < NumRects(c.rects) && x in Reported(c, i, r.objects, f) && StampedFrame(f)
    requires x in r.objects ==> h != [] && r.objects[x] == h[|h| - 1].entry
    requires Measured(h) && EnterTime(h) <= f.timestamp
    ensures var g := h + [ReportOf(c, i, r, f, x)]; Measured(g) && EnterTime(g) <= f.timestamp
  {
    hide Inside;
    var g := h + [ReportOf(c, i, r, f, x)];
    assert g[..|g| - 1] == h;
  }

  /** In every report, also in that of a leave, `timestamp_enter` is the time of the Enter that began the visit and
      `timestamp_touched` the last time the object was seen to move since, so the lifespan does not underflow. */
  lemma {:induction false} VisitsAreMeasured(c: Settings, i: nat, r: Region, acts: seq<Act>, x: int)
    requires i < NumRects(c.rects) && r.objects == map[] && Clocked(acts)
    ensures var h := History(c, i, r, acts, x);
      Measured(h) && EnterTime(h) <= LastTime(acts) < U64 && forall k :: 0 <= k <= |h| ==> Measured(h[..k])
  {
    hide Reported, Observed, ReportOf, Measured, StampedFrame;
    if acts == [] {
      NothingToMeasure();
    } else {
      var before := acts[..|acts| - 1];
      VisitsAreMeasured(c, i, r, before, x);
      ReportsAlternate(c, i, r, before, x);
      var now, h := Run(c, i, r, before), History(c, i, r, before, x);
      match acts[|acts| - 1]
      case Seen(f) =>
        FrameIsTimed(f);
        if x in Reported(c, i, now.objects, f) {
          NextIsMeasured(c, i, now, f, x, h);
          var g := h + [ReportOf(c, i, now, f, x)];
          forall k | 0 <= k <= |g| ensures Measured(g[..k]) {
            if k <= |h| {
              assert g[..k] == h[..k];
            } else {
              assert g[..k] == g;
            }
          }
        } else {
          assert h + [] == h;
        }
      case Restart =>
      case Clear => NothingToMeasure();
    }
  }

  lemma NothingToMeasure()
    ensures Measured([]) && forall k :: 0 <= k <= 0 ==> Measured([][..k])
  {
    var none: seq<Report> := [];
    forall k | 0 <= k <= 0 ensures Measured(none[..k]) {
      assert none[..k] == none;
    }
  }

  lemma FrameIsTimed(f: Frame)
    requires StampedFrame(f)
    ensures f.timestamp < U64
  {
  }

  /** What is added to the sum of lifespans when an object leaves: the time from its Enter to its last move. */
  lemma LifespanOfAVisit(c: Settings, i: nat, r: Region, acts: seq<Act>, x: int, k: nat)
    requires i < NumRects(c.rects) && r.objects == map[] && Clocked(acts)
    requires k < |History(c, i, r, acts, x)|
    ensures var h := History(c, i, r, acts, x);
      Lifespan(h[k].entry) == TouchTime(h[..k + 1]) - EnterTime(h[..k + 1])
  {
    VisitsAreMeasured(c, i, r, acts, x);
    var h := History(c, i, r, acts, x);
    assert Measured(h[..k + 1]);
    ReportsAreTimed(c, i, r, acts, x);
    TouchOfTimed(h[..k + 1]);
  }

  lemma {:induction false} TouchOfTimed(h: seq<Report>)
    requires Timed(h)
    ensures TouchTime(h) < U64
  {
    if h != [] {
      TouchOfTimed(h[..|h| - 1]);
    }
  }

  ghost predicate Timed(h: seq<Report>) {
    forall j :: 0 <= j < |h| ==> h[j].time < U64
  }

  lemma {:induction false} ReportsAreTimed(c: Settings, i: nat, r: Region, acts: seq<Act>, x: int)
    requires i < NumRects(c.rects) && Clocked(acts)
    ensures Timed(History(c, i, r, acts, x))
  {
    hide Reported, Observed, ReportOf, StampedFrame, Run, Timed;
    if acts == [] {
      NothingIsTimed();
    } else {
      var before := acts[..|acts| - 1];
      ReportsAreTimed(c, i, r, before, x);
      match acts[|acts| - 1]
      case Seen(f) =>
        var h, now := History(c, i, r, before, x), Run(c, i, r, before);
        FrameIsTimed(f);
        if x in Reported(c, i, now.objects, f) {
          ReportIsReported(c, i, now, f, x);
          OneMoreTimed(h, ReportOf(c, i, now, f, x));
        } else {
          assert h + [] == h;
        }
      case Restart =>
      case Clear => NothingIsTimed();
    }
  }

  lemma NothingIsTimed()
    ensures Timed([])
  {
  }

  lemma OneMoreTimed(h: seq<Report>, report: Report)
    requires Timed(h) && report.time < U64
    ensures Timed(h + [report])
  {
  }
}
