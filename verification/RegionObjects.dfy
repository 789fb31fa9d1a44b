/** The objects of a region, into which a frame is worked in place. */
module RegionObjects {
  import opened Common
  import opened Regions
  import opened Observer

  ghost function Invalidated(m: map<int, Tracked>): map<int, Tracked> {
    map id | id in m :: m[id].(status := Invalid)
  }

  ghost function Follow(c: Settings, i: nat, m: map<int, Tracked>, f: Frame, id: int): Tracked
    requires i < NumRects(c.rects) && (id in m || Inside(c, i, f, id))
  {
    if !Inside(c, i, f, id) then m[id]
    else if id in m then Moving(c, f, m[id], f.objects[id])
    else Entering(c, i, f, f.objects[id])
  }

  /** The region while the objects `ids` of the frame are still to be looked at. */
  ghost function Followed(c: Settings, i: nat, m: map<int, Tracked>, f: Frame, ids: set<int>): map<int, Tracked>
    requires i < NumRects(c.rects)
  {
    map id | id in m.Keys + f.objects.Keys && (id in m || (id !in ids && Inside(c, i, f, id))) ::
      if id in ids then m[id] else Follow(c, i, m, f, id)
  }

  lemma FollowOne(c: Settings, i: nat, m: map<int, Tracked>, f: Frame, ids: set<int>, id: int)
    requires i < NumRects(c.rects) && id in ids && ids <= f.objects.Keys
    ensures var before, next := Followed(c, i, m, f, ids), Followed(c, i, m, f, ids - {id});
      && (id in before <==> id in m) && (id in m ==> before[id] == m[id])
      && next == if Inside(c, i, f, id) then before[id := Follow(c, i, m, f, id)] else before
  {
    hide Inside;
  }

  lemma FollowEnds(c: Settings, i: nat, m: map<int, Tracked>, f: Frame)
    requires i < NumRects(c.rects)
    ensures Followed(c, i, m, f, f.objects.Keys) == m
  {
  }

  /** The region while the objects `ids` of it are still to be looked at. */
  ghost function Departed(c: Settings, i: nat, m: map<int, Tracked>, f: Frame, ids: set<int>): map<int, Tracked>
    requires i < NumRects(c.rects)
  {
    map id | id in m :: if id !in ids && m[id].status == Invalid then Leaving(c, i, f, m[id], id) else m[id]
  }

  lemma DepartOne(c: Settings, i: nat, m: map<int, Tracked>, f: Frame, ids: set<int>, id: int)
    requires i < NumRects(c.rects) && id in ids && ids <= m.Keys
    ensures var before, next := Departed(c, i, m, f, ids), Departed(c, i, m, f, ids - {id});
      && id in before && before[id] == m[id]
      && next == if m[id].status == Invalid then before[id := Leaving(c, i, f, m[id], id)] else before
  {
    hide Leaving;
  }

  /** Marking, following and departing add up to what is reported. */
  lemma PassesReport(c: Settings, i: nat, m: map<int, Tracked>, f: Frame)
    requires i < NumRects(c.rects)
    ensures Departed(c, i, Followed(c, i, Invalidated(m), f, {}), f, {}) == Reported(c, i, m, f)
    ensures Departed(c, i, m, f, m.Keys) == m
  {
    hide Inside;
  }

  lemma HavingWith(m: map<int, Tracked>, id: int, t: Tracked, status: Status)
    requires id in m ==> m[id].status != status
    ensures id !in Having(m, status)
    ensures Having(m[id := t], status) == if t.status == status then Having(m, status) + {id} else Having(m, status)
  {
  }

  lemma CountedWith(c: Settings, i: nat, m: map<int, Tracked>, id: int, t: Tracked, status: Status)
    requires i < NumRects(c.rects) && (id in m ==> m[id].status != status)
    ensures id !in Counted(c, i, m, status)
    ensures Counted(c, i, m[id := t], status) ==
      if t.status == status && CountEdge(c.rects, i, t.edge) == 1 then Counted(c, i, m, status) + {id}
        else Counted(c, i, m, status)
  {
    hide CountEdge;
  }

  /** How the counts of a status change with one entry. */
  lemma EntryCounts(c: Settings, i: nat, m: map<int, Tracked>, id: int, t: Tracked, status: Status)
    requires i < NumRects(c.rects) && (id in m ==> m[id].status != status)
    ensures var n := m[id := t];
      && Having(n, status) == (if t.status == status then Having(m, status) + {id} else Having(m, status))
      && id !in Having(m, status)
      && |Counted(c, i, n, status)| == |Counted(c, i, m, status)| +
           if t.status == status then CountEdge(c.rects, i, t.edge) else 0
  {
    hide Having, Counted, CountEdge;
    HavingWith(m, id, t, status);
    CountedWith(c, i, m, id, t, status);
  }

  lemma LifespanGrows(m: map<int, Tracked>, id: int, t: Tracked, sum: nat)
    requires id in m && m[id].status != Leave && t.status == Leave
    ensures Wrapped(LifespansAdded(sum, m) + Lifespan(t)) == LifespansAdded(sum, m[id := t])
  {
    hide Lifespan, LifespanOf, Wrapped;
    var n, gone := m[id := t], Having(m, Leave);
    assert Having(n, Leave) == gone + {id};
    LifespanWithout(n, gone + {id}, id);
    assert gone + {id} - {id} == gone;
    LifespanAgrees(m, n, gone);
    SumsWrapTogether(sum + LifespanOf(m, gone), Lifespan(t));
  }

  lemma LeaveGrows(c: Settings, i: nat, f: Frame, m: map<int, Tracked>, id: int, sum: nat)
    requires i < NumRects(c.rects) && id in m && m[id].status == Invalid
    ensures var t := Leaving(c, i, f, m[id], id); var n := m[id := t];
      && |Counted(c, i, n, Leave)| == |Counted(c, i, m, Leave)| + CountEdge(c.rects, i, t.edge)
      && |Having(n, Leave)| == |Having(m, Leave)| + 1 && Having(n, Leave) != {}
      && Wrapped(LifespansAdded(sum, m) + Lifespan(t)) == LifespansAdded(sum, n)
  {
    hide Counted, LifespansAdded, Lifespan, Wrapped, EdgeCrossed, CountEdge;
    var t := Leaving(c, i, f, m[id], id);
    EntryCounts(c, i, m, id, t, Leave);
    LifespanGrows(m, id, t, sum);
  }

  lemma NoLifespans(m: map<int, Tracked>, sum: nat)
    requires sum < U64
    requires forall id :: id in m ==> m[id].status != Leave
    ensures LifespansAdded(sum, m) == sum
  {
    SomeElement(Having(m, Leave));
  }

  /** The objects of one region, with its counters. */
  class ObsvObjects {
    var objects: map<int, Tracked>
    var validCount: int
    var lastCount: int
    var enterCount: nat
    var leaveCount: nat
    var gateCount: nat
    var lifespanSum: nat
    var lifespanCount: nat
    var switchTimestamp: nat
    var switchDurationSum: nat

    ghost function State(): Region
      reads this
    {
      Region(objects, validCount, lastCount, enterCount, leaveCount, gateCount, lifespanSum, lifespanCount,
             switchTimestamp,
             switchDurationSum)
    }

    constructor ()
      ensures State() == Region(map[], 0, -1, 0, 0, 0, 0, 0, 0, 0)
    {
      objects, validCount, lastCount := map[], 0, -1;
      enterCount, leaveCount, gateCount := 0, 0, 0;
      lifespanSum, lifespanCount := 0, 0;
      switchTimestamp, switchDurationSum := 0, 0;
    }

    method Invalidate()
      modifies this`objects
      ensures objects == Invalidated(old(objects))
    {
      var ids := objects.Keys;
      while ids != {}
        invariant ids <= objects.Keys == old(objects).Keys
        invariant forall id :: id in objects ==>
          objects[id] == if id in ids then old(objects)[id] else old(objects)[id].(status := Invalid)
        decreases |ids|
      {
        SomeElement(ids);
        var id :| id in ids;
        objects := objects[id := objects[id].(status := Invalid)];
        ids := ids - {id};
      }
      assert forall id :: id in objects ==> id !in ids && objects[id] == Invalidated(old(objects))[id];
    }

    /** Objects of the frame that are inside enter or move. */
    method FollowFrame(c: Settings, i: nat, f: Frame)
      requires i < NumRects(c.rects)
      requires forall id :: id in objects ==> objects[id].status == Invalid
      modifies this`objects, this`enterCount, this`gateCount
      ensures objects == Followed(c, i, old(objects), f, {})
      ensures enterCount == old(enterCount) + |Counted(c, i, objects, Enter)|
      ensures gateCount == if Having(objects, Enter) == {} then old(gateCount) else Gate(enterCount, leaveCount)
    {
      hide Contains, EdgeCrossed, CountEdge, Followed, Counted, Having;
      var ids := f.objects.Keys;
      FollowEnds(c, i, objects, f);
      NoneHas(c, i, objects, Enter);
      while ids != {}
        invariant ids <= f.objects.Keys
        invariant objects == Followed(c, i, old(objects), f, ids)
        invariant enterCount == old(enterCount) + |Counted(c, i, objects, Enter)|
        invariant gateCount == if Having(objects, Enter) == {} then old(gateCount) else Gate(enterCount, leaveCount)
        decreases |ids|
      {
        SomeElement(ids);
        var id :| id in ids;
        FollowOne(c, i, old(objects), f, ids, id);
        var seen := f.objects[id];
        if c.useLatent || !seen.latent {
          var contains := ContainsPoint(c.rects, i, seen.x, seen.y);
          if contains {
            if id !in objects {
              var obj := Entering(c, i, f, seen);
              EntryCounts(c, i, objects, id, obj, Enter);
              objects := objects[id := obj];
              enterCount := enterCount + CountEdge(c.rects, i, obj.edge);
              gateCount := Gate(enterCount, leaveCount);
            } else {
              var obj := Moving(c, f, objects[id], seen);
              EntryCounts(c, i, objects, id, obj, Enter);
              objects := objects[id := obj];
            }
          }
        }
        ids := ids - {id};
      }
    }

    /** An object leaves; `sum` is what the lifespans of the frame are added to. */
    method LetGo(c: Settings, i: nat, f: Frame, id: int, ghost sum: nat)
      requires i < NumRects(c.rects) && id in objects && objects[id].status == Invalid
      requires lifespanSum == LifespansAdded(sum, objects)
      modifies this`objects, this`leaveCount, this`gateCount, this`lifespanSum, this`lifespanCount
      ensures objects == old(objects)[id := Leaving(c, i, f, old(objects)[id], id)]
      ensures lifespanSum == LifespansAdded(sum, objects)
      ensures leaveCount - |Counted(c, i, objects, Leave)| == old(leaveCount - |Counted(c, i, objects, Leave)|)
      ensures |Having(objects, Leave)| == |Having(old(objects), Leave)| + 1 && Having(objects, Leave) != {}
      ensures gateCount == Gate(enterCount, leaveCount) && lifespanCount == old(lifespanCount) + 1
    {
      hide EdgeCrossed, CountEdge, Lifespan, LifespansAdded, Counted, Having, Gate, Wrapped, Leaving;
      LeaveGrows(c, i, f, objects, id, sum);
      var gone := Leaving(c, i, f, objects[id], id);
      objects := objects[id := gone];
      leaveCount := leaveCount + CountEdge(c.rects, i, gone.edge);
      gateCount := Gate(enterCount, leaveCount);
      lifespanSum := Wrapped(lifespanSum + Lifespan(gone));
      lifespanCount := lifespanCount + 1;
    }

    /** Objects that were not followed leave. */
    method Depart(c: Settings, i: nat, f: Frame) returns (invalidCount: nat)
      requires i < NumRects(c.rects)
      requires lifespanSum < U64
      requires forall id :: id in objects ==> objects[id].status != Leave
      modifies this`objects, this`leaveCount, this`gateCount, this`lifespanSum, this`lifespanCount
      ensures objects == Departed(c, i, old(objects), f, {})
      ensures leaveCount == old(leaveCount) + |Counted(c, i, objects, Leave)|
      ensures gateCount == if Having(objects, Leave) == {} then old(gateCount) else Gate(enterCount, leaveCount)
      ensures lifespanSum == LifespansAdded(old(lifespanSum), objects)
      ensures invalidCount == |Having(objects, Leave)| && lifespanCount == old(lifespanCount) + invalidCount
    {
      hide *;
      var ids := objects.Keys;
      PassesReport(c, i, objects, f);
      NoneHas(c, i, objects, Leave);
      NoLifespans(objects, lifespanSum);
      invalidCount := 0;
      while ids != {}
        invariant ids <= old(objects).Keys
        invariant objects == Departed(c, i, old(objects), f, ids)
        invariant leaveCount == old(leaveCount) + |Counted(c, i, objects, Leave)|
        invariant gateCount == if Having(objects, Leave) == {} then old(gateCount) else Gate(enterCount, leaveCount)
        invariant invalidCount == |Having(objects, Leave)| && lifespanCount == old(lifespanCount) + invalidCount
        invariant lifespanSum == LifespansAdded(old(lifespanSum), objects)
        decreases |ids|
      {
        SomeElement(ids);
        var id :| id in ids;
        DepartOne(c, i, old(objects), f, ids, id);
        if objects[id].status == Invalid {
          LetGo(c, i, f, id, old(lifespanSum));
          invalidCount := invalidCount + 1;
        }
        ids := ids - {id};
      }
    }

    /** One frame, up to the report. */
    method Update(c: Settings, i: nat, f: Frame)
      requires i < NumRects(c.rects) && lifespanSum < U64
      modifies this
      ensures State() == Updated(c, i, old(State()), f) && lifespanSum < U64
    {
      hide Updated, Reported, Departed, Followed, Counted, Having, LifespansAdded, Gate, Inside, Since, Wrapped;
      lastCount := validCount;
      if validCount == 0 {
        switchTimestamp := 0;
      }
      PassesReport(c, i, objects, f);
      Invalidate();
      FollowFrame(c, i, f);
      DepartingKeepsEnters(c, i, old(objects), f);
      SumsAreWrapped(lifespanSum, Reported(c, i, old(objects), f));
      var invalidCount := Depart(c, i, f);
      validCount := |objects| - invalidCount;
      if validCount > 0 && lastCount <= 0 {
        switchTimestamp := f.timestamp;
      } else if validCount == 0 && lastCount > 0 && switchTimestamp > 0 {
        switchDurationSum := Wrapped(switchDurationSum + Since(f.timestamp, switchTimestamp));
      }
      IsUpdated(c, i, old(State()), f, State());
    }

    /** After the report, what left is forgotten. */
    method EraseLeft()
      modifies this`objects
      ensures State() == old(State()).(objects := Erased(old(objects)))
    {
      var ids := objects.Keys;
      while ids != {}
        invariant ids <= old(objects).Keys
        invariant forall id :: id in objects <==> id in old(objects) && (id in ids || old(objects)[id].status != Leave)
        invariant forall id :: id in objects ==> objects[id] == old(objects)[id]
        decreases |ids|
      {
        SomeElement(ids);
        var id :| id in ids;
        if objects[id].status == Leave {
          objects := objects - {id};
        }
        ids := ids - {id};
      }
      assert forall id :: id in objects <==> id in Erased(old(objects));
      assert forall id :: id in objects ==> objects[id] == Erased(old(objects))[id];
    }

    method Restart()
      modifies this
      ensures State() == Restarted(old(State()))
    {
      lastCount := -1;
      enterCount, leaveCount, gateCount := 0, 0, 0;
      lifespanSum, lifespanCount := 0, 0;
      switchTimestamp, switchDurationSum := 0, 0;
    }

    method Clear()
      modifies this
      ensures State() == Cleared(old(State()))
    {
      objects, validCount := map[], 0;
      Restart();
    }
  }

  lemma NoneHas(c: Settings, i: nat, m: map<int, Tracked>, status: Status)
    requires i < NumRects(c.rects) && forall id :: id in m ==> m[id].status != status
    ensures Having(m, status) == {} && Counted(c, i, m, status) == {}
  {
    SomeElement(Having(m, status));
    SomeElement(Counted(c, i, m, status));
  }

  lemma DepartingKeepsEnters(c: Settings, i: nat, m: map<int, Tracked>, f: Frame)
    requires i < NumRects(c.rects)
    ensures var before, after := Followed(c, i, Invalidated(m), f, {}), Reported(c, i, m, f);
      && Having(before, Enter) == Having(after, Enter) && Counted(c, i, before, Enter) == Counted(c, i, after, Enter)
      && (forall id :: id in before ==> before[id].status != Leave)
      && (Having(after, Leave) == {} ==> Counted(c, i, after, Leave) == {})
  {
    hide Inside, EdgeCrossed, CountEdge;
    var before, after := Followed(c, i, Invalidated(m), f, {}), Reported(c, i, m, f);
    assert before.Keys == after.Keys;
    forall id | id in after
      ensures after[id].status == Enter ==> before[id] == after[id]
      ensures before[id].status == Enter ==> before[id] == after[id]
    {
    }
    assert Having(before, Enter) == Having(after, Enter);
    assert Counted(c, i, before, Enter) == Counted(c, i, after, Enter);
    assert Counted(c, i, after, Leave) <= Having(after, Leave);
  }

  lemma SumsAreWrapped(sum: nat, m: map<int, Tracked>)
    ensures LifespansAdded(sum, m) < U64
  {
  }

  /** The fields of an updated region, one by one. */
  lemma IsUpdated(c: Settings, i: nat, r: Region, f: Frame, u: Region)
    requires i < NumRects(c.rects)
    requires var m := Reported(c, i, r.objects, f);
      && u.objects == m && u.validCount == |m| - |Having(m, Leave)| && u.lastCount == r.validCount
      && u.enterCount == r.enterCount + |Counted(c, i, m, Enter)| &&
        u.leaveCount == r.leaveCount + |Counted(c, i, m, Leave)|
      && u.lifespanSum == LifespansAdded(r.lifespanSum, m) && u.lifespanCount == r.lifespanCount + |Having(m, Leave)|
    requires var m := Reported(c, i, r.objects, f);
      u.gateCount ==
        if Having(m, Enter) == {} && Having(m, Leave) == {} then r.gateCount else Gate(u.enterCount, u.leaveCount)
    requires var since := if r.validCount == 0 then 0 else r.switchTimestamp;
      && u.switchTimestamp == (if u.validCount > 0 && r.validCount <= 0 then f.timestamp else since)
      && u.switchDurationSum == (if u.validCount == 0 && r.validCount > 0 && since > 0
                                 then Wrapped(r.switchDurationSum + Since(f.timestamp, since)) else r.switchDurationSum)
    ensures u == Updated(c, i, r, f)
  {
    hide Reported, Counted, Having, LifespansAdded, Gate, Since, Wrapped;
  }
}
