/** Who hosts a latent id, and whose ids are taken when one is reclaimed. */
module TrackerHosts {
  import opened Common
  import opened Tracker
  import opened TrackerIds

  // ---- looking around with a limit that narrows ----

  /** An object as seen from the one that looks for a host: how far away it is, how far the speeds of both carry, and
      whether it comes into question.  */
  datatype Host = Host(gap: real, reach: real, open: bool)

  predicate Within(h: Host, limit: real) {
    h.open && h.gap < limit + h.reach
  }

  /** The limit in force once all hosts from index k on were looked at, the last one first: the distance of the one that
      was chosen last, if any was.  */
  function LimitAfter(hosts: seq<Host>, limit: real, k: nat): real
    requires k <= |hosts|
    decreases |hosts| - k
  {
    if k == |hosts| then limit
    else if Within(hosts[k], LimitAfter(hosts, limit, k + 1)) then hosts[k].gap
    else LimitAfter(hosts, limit, k + 1)
  }

  predicate Chosen(hosts: seq<Host>, limit: real, k: nat) {
    k < |hosts| && Within(hosts[k], LimitAfter(hosts, limit, k + 1))
  }

  ghost predicate LowestChosen(hosts: seq<Host>, limit: real, k: nat) {
    Chosen(hosts, limit, k) && forall l: nat :: l < k ==> !Chosen(hosts, limit, l)
  }

  ghost predicate NoneChosen(hosts: seq<Host>, limit: real) {
    forall k: nat :: !Chosen(hosts, limit, k)
  }

  ghost predicate SomeWithin(hosts: seq<Host>, limit: real) {
    exists k :: 0 <= k < |hosts| && Within(hosts[k], limit)
  }

  lemma {:induction false} LastFirst(hosts: seq<Host>, limit: real, k: nat)
    requires k < |hosts|
    ensures var n := |hosts| - 1; LimitAfter(hosts, limit, k) == LimitAfter(hosts[..n], LimitAfter(hosts, limit, n), k)
    decreases |hosts| - k
  {
    if k < |hosts| - 1 {
      LastFirst(hosts, limit, k + 1);
    }
  }

  /** Looking at the last host first, and then at the others with the new limit. */
  lemma ChosenLastFirst(hosts: seq<Host>, limit: real, k: nat)
    requires k < |hosts|
    ensures var n := |hosts| - 1;
      Chosen(hosts, limit, k) <==>
        if k == n then Within(hosts[n], limit) else Chosen(hosts[..n], LimitAfter(hosts, limit, n), k)
  {
    if k < |hosts| - 1 {
      LastFirst(hosts, limit, k + 1);
    }
  }

  lemma LookingDown(hosts: seq<Host>, limit: real, front: seq<Host>, last: Host, l: real)
    requires hosts == front + [last] && l == if Within(last, limit) then last.gap else limit
    ensures forall k: nat :: Chosen(hosts, limit, k) <==>
      if k == |front| then Within(last, limit) else Chosen(front, l, k)
    ensures forall k: nat :: Chosen(front, l, k) ==> k < |front|
    ensures forall k: nat :: LowestChosen(front, l, k) ==> k < |front|
    ensures forall k: nat :: LowestChosen(hosts, limit, k) <==>
      LowestChosen(front, l, k) || (NoneChosen(front, l) && k == |front| && Within(last, limit))
  {
    hide LimitAfter, Within;
    LastLimit(hosts, limit);
    assert hosts[..|front|] == front;
    forall k: nat
      ensures Chosen(hosts, limit, k) <==> if k == |front| then Within(last, limit) else Chosen(front, l, k)
    {
      if k < |hosts| {
        ChosenLastFirst(hosts, limit, k);
      }
    }
    if !NoneChosen(front, l) {
      var i: nat :| Chosen(front, l, i);
      assert Chosen(hosts, limit, i);
    }
  }

  lemma LastLimit(hosts: seq<Host>, limit: real)
    requires |hosts| > 0
    ensures var n := |hosts| - 1; LimitAfter(hosts, limit, n) == if Within(hosts[n], limit) then hosts[n].gap else limit
  {
  }

  lemma {:induction false} NoneWithin(hosts: seq<Host>, limit: real, k: nat)
    requires k <= |hosts| && forall l :: k <= l < |hosts| ==> !Within(hosts[l], limit)
    ensures LimitAfter(hosts, limit, k) == limit
    ensures forall l: nat :: k <= l ==> !Chosen(hosts, limit, l)
    decreases |hosts| - k
  {
    if k < |hosts| {
      NoneWithin(hosts, limit, k + 1);
    }
  }

  /** The first host that is looked at and is within the limit. */
  ghost predicate Foremost(hosts: seq<Host>, limit: real, m: nat) {
    m < |hosts| && Within(hosts[m], limit) && forall l :: m < l < |hosts| ==> !Within(hosts[l], limit)
  }

  lemma {:induction false} SomeForemost(hosts: seq<Host>, limit: real, k: nat) returns (m: nat)
    requires k < |hosts| && Within(hosts[k], limit)
    ensures Foremost(hosts, limit, m) && m >= k
    decreases |hosts| - k
  {
    m := k;
    if l :| k < l < |hosts| && Within(hosts[l], limit) {
      m := SomeForemost(hosts, limit, l);
    }
  }

  lemma ForemostIsChosen(hosts: seq<Host>, limit: real, m: nat)
    requires Foremost(hosts, limit, m)
    ensures Chosen(hosts, limit, m) && LimitAfter(hosts, limit, m) == hosts[m].gap
    ensures forall l: nat :: m < l ==> !Chosen(hosts, limit, l)
  {
    NoneWithin(hosts, limit, m + 1);
  }

  lemma {:induction false} SomeLowest(hosts: seq<Host>, limit: real, k: nat) returns (m: nat)
    requires Chosen(hosts, limit, k)
    ensures LowestChosen(hosts, limit, m) && m <= k
    decreases k
  {
    m := k;
    if l: nat :| l < k && Chosen(hosts, limit, l) {
      m := SomeLowest(hosts, limit, l);
    }
  }

  /** Some host is chosen iff some host is within the limit. */
  lemma ChosenIffWithin(hosts: seq<Host>, limit: real)
    ensures (exists k: nat :: LowestChosen(hosts, limit, k)) <==> SomeWithin(hosts, limit)
  {
    hide Within, LowestChosen, Chosen;
    if k :| 0 <= k < |hosts| && Within(hosts[k], limit) {
      var m := SomeForemost(hosts, limit, k);
      ForemostIsChosen(hosts, limit, m);
      var l := SomeLowest(hosts, limit, m);
    } else {
      NoneWithin(hosts, limit, 0);
      NoneIsLowest(hosts, limit);
    }
  }

  lemma NoneIsLowest(hosts: seq<Host>, limit: real)
    requires NoneChosen(hosts, limit)
    ensures forall l: nat :: !LowestChosen(hosts, limit, l)
  {
  }

  // ---- when only one is chosen ----

  /** Behind the first host within the limit, no other one is within its distance. */
  ghost predicate Lonely(hosts: seq<Host>, limit: real) {
    forall m: nat, k: nat :: k < m < |hosts| && Foremost(hosts, limit, m) ==> !Within(hosts[k], hosts[m].gap)
  }

  ghost predicate OnlyOneChosen(hosts: seq<Host>, limit: real) {
    forall k: nat, l: nat :: Chosen(hosts, limit, k) && Chosen(hosts, limit, l) ==> k == l
  }

  lemma {:induction false} NoneBelow(hosts: seq<Host>, limit: real, m: nat, k: nat)
    requires Foremost(hosts, limit, m) && k <= m && forall l :: k <= l < m ==> !Within(hosts[l], hosts[m].gap)
    ensures LimitAfter(hosts, limit, k) == hosts[m].gap
    ensures forall l: nat :: k <= l < m ==> !Chosen(hosts, limit, l)
    decreases m - k
  {
    if k == m {
      ForemostIsChosen(hosts, limit, m);
    } else {
      NoneBelow(hosts, limit, m, k + 1);
    }
  }

  lemma {:induction false} OneBelow(hosts: seq<Host>, limit: real, m: nat, k: nat) returns (l: nat)
    requires Foremost(hosts, limit, m) && k < m && Within(hosts[k], hosts[m].gap)
    ensures l < m && Chosen(hosts, limit, l)
    decreases m - k
  {
    if i :| k < i < m && Within(hosts[i], hosts[m].gap) {
      l := OneBelow(hosts, limit, m, i);
    } else {
      NoneBelow(hosts, limit, m, k + 1);
      l := k;
    }
  }

  /** At most one host is chosen iff no other one is within the distance of the first that is within the limit. */
  lemma LonelyIffOnlyOne(hosts: seq<Host>, limit: real)
    ensures OnlyOneChosen(hosts, limit) <==> Lonely(hosts, limit)
  {
    hide Within, Chosen, Foremost;
    if m: nat, k: nat :| k < m < |hosts| && Foremost(hosts, limit, m) && Within(hosts[k], hosts[m].gap) {
      var l := OneBelow(hosts, limit, m, k);
      ForemostIsChosen(hosts, limit, m);
    } else if SomeWithin(hosts, limit) {
      var k :| 0 <= k < |hosts| && Within(hosts[k], limit);
      var m := SomeForemost(hosts, limit, k);
      ForemostIsChosen(hosts, limit, m);
      NoneBelow(hosts, limit, m, 0);
    } else {
      NoneWithin(hosts, limit, 0);
    }
  }

  // ---- while nothing moves ----

  ghost predicate AtRest(hosts: seq<Host>) {
    forall k :: 0 <= k < |hosts| ==> hosts[k].reach == 0.0
  }

  lemma {:induction false} LimitAtRest(hosts: seq<Host>, limit: real, k: nat)
    requires k <= |hosts| && AtRest(hosts)
    ensures var r := LimitAfter(hosts, limit, k);
      && r <= limit && (forall l :: k <= l < |hosts| && hosts[l].open ==> r <= hosts[l].gap)
      && (r == limit || exists l :: k <= l < |hosts| && hosts[l].open && r == hosts[l].gap)
    decreases |hosts| - k
  {
    if k < |hosts| {
      LimitAtRest(hosts, limit, k + 1);
    }
  }

  /** Nearer than the limit and than all others behind it. */
  ghost predicate Undercuts(hosts: seq<Host>, limit: real, k: nat) {
    k < |hosts| && hosts[k].open && hosts[k].gap < limit &&
    forall l :: k < l < |hosts| && hosts[l].open ==> hosts[k].gap < hosts[l].gap
  }

  ghost predicate Nearest(hosts: seq<Host>, k: nat) {
    k < |hosts| && hosts[k].open && forall l :: 0 <= l < |hosts| && hosts[l].open ==> hosts[k].gap <= hosts[l].gap
  }

  lemma ChosenAtRest(hosts: seq<Host>, limit: real, k: nat)
    requires AtRest(hosts)
    ensures Chosen(hosts, limit, k) <==> Undercuts(hosts, limit, k)
    ensures LowestChosen(hosts, limit, k) ==> Nearest(hosts, k)
  {
    if k < |hosts| {
      LimitAtRest(hosts, limit, k + 1);
      LimitAtRest(hosts, limit, 0);
      if LowestChosen(hosts, limit, k) {
        LimitStays(hosts, limit, 0, k);
      }
    }
  }

  lemma {:induction false} LimitStays(hosts: seq<Host>, limit: real, i: nat, k: nat)
    requires LowestChosen(hosts, limit, k) && i <= k
    ensures LimitAfter(hosts, limit, i) == hosts[k].gap
    decreases k - i
  {
    if i < k {
      assert !Chosen(hosts, limit, i);
      LimitStays(hosts, limit, i + 1, k);
    }
  }

  // ---- who hosts an id ----

  function Neighbours(current: seq<Trackable>, self: nat, geo: Geometry): (r: seq<Host>)
    requires self < |current|
    ensures |r| == |current|
  {
    seq(|current|, k requires 0 <= k < |current| =>
      Host(geo.distance(current[k].key, current[self].key), geo.reach(current[self].key, current[k].key),
           k != self && current[k].isActivated))
  }

  lemma {:induction false} HostIsChosenBelow(current: seq<Trackable>, self: nat, geo: Geometry, i: nat, limit: real,
                                             host: Option<nat>)
    requires self < |current| && i <= |current|
    requires host.Some? ==> i <= host.value < |current| && host.value != self && current[host.value].isActivated
    ensures var r, hosts := FindHost(current, self, geo, i, limit, host), Neighbours(current, self, geo)[..i];
      if r.Some? && r.value < i then LowestChosen(hosts, limit, r.value)
      else r == host && NoneChosen(hosts, limit)
    decreases i
  {
    hide Chosen, LowestChosen;
    var all := Neighbours(current, self, geo);
    if i == 0 {
      NoneWithin([], limit, 0);
    } else {
      LookingDown(all[..i], limit, all[..i - 1], all[i - 1],
                  if Within(all[i - 1], limit) then all[i - 1].gap else limit);
      if Within(all[i - 1], limit) {
        HostIsChosenBelow(current, self, geo, i - 1, all[i - 1].gap, Some(i - 1));
      } else {
        HostIsChosenBelow(current, self, geo, i - 1, limit, host);
      }
    }
  }

  /** An id is lent iff an active neighbour is nearer than the limit and what the speeds of both add to it, and the
      host is the last neighbour that was nearer than the limit in force when it was looked at. */
  lemma HostIsChosen(current: seq<Trackable>, self: nat, geo: Geometry, limit: real)
    requires self < |current|
    ensures var r, hosts := FindHost(current, self, geo, |current|, limit, None), Neighbours(current, self, geo);
      (r.Some? <==> SomeWithin(hosts, limit)) && (r.Some? ==> LowestChosen(hosts, limit, r.value))
  {
    hide LowestChosen, SomeWithin, Chosen, FindHost;
    var hosts := Neighbours(current, self, geo);
    HostIsChosenBelow(current, self, geo, |current|, limit, None);
    assert hosts[..|current|] == hosts;
    ChosenIffWithin(hosts, limit);
    if NoneChosen(hosts, limit) {
      NoneIsLowest(hosts, limit);
    }
  }

  /** While nothing moves, an id is lent iff an active neighbour is nearer than the limit, and to a nearest one. */
  lemma HostIsNearest(current: seq<Trackable>, self: nat, geo: Geometry, limit: real)
    requires self < |current| && AtRest(Neighbours(current, self, geo))
    ensures var r, hosts := FindHost(current, self, geo, |current|, limit, None), Neighbours(current, self, geo);
      && (r.Some? <==> exists k :: 0 <= k < |hosts| && hosts[k].open && hosts[k].gap < limit)
      && (r.Some? ==> Nearest(hosts, r.value))
  {
    hide FindHost, LowestChosen, Nearest;
    HostIsChosen(current, self, geo, limit);
    var r := FindHost(current, self, geo, |current|, limit, None);
    if r.Some? {
      ChosenAtRest(Neighbours(current, self, geo), limit, r.value);
    }
  }

  // ---- whose ids are taken ----

  predicate Offers(t: Trackable) {
    t.isActivated && Get(t.latentIds).Some?
  }

  function Offered(current: seq<Trackable>, self: Trackable, geo: Geometry): (r: seq<Host>)
    ensures |r| == |current|
  {
    seq(|current|, k requires 0 <= k < |current| =>
      Host(geo.distance(current[k].key, self.key), geo.reach(self.key, current[k].key), Offers(current[k])))
  }

  function OldestId(t: Trackable): nat {
    var id := Get(t.latentIds);
    if id.Some? then id.value else 0
  }

  function Robbed(t: Trackable): Trackable {
    t.(latentIds := Remove(t.latentIds, OldestId(t)))
  }

  lemma {:induction false} ReclaimingBelow(current: seq<Trackable>, self: Trackable, geo: Geometry, j: nat,
                                           limit: real, id: nat)
    requires j <= |current|
    ensures var r, hosts := GetLatentId(current, self, geo, j, limit, id), Offered(current, self, geo)[..j];
      && (forall k :: 0 <= k < |current| ==>
          r.0[k] == if Chosen(hosts, limit, k) then Robbed(current[k]) else current[k])
      && (NoneChosen(hosts, limit) ==> r.1 == id)
      && (forall k: nat :: LowestChosen(hosts, limit, k) ==> r.1 == OldestId(current[k]))
    decreases j
  {
    hide Get, Remove, Chosen, LowestChosen;
    var all := Offered(current, self, geo);
    if j == 0 {
      NoneWithin([], limit, 0);
      NoneIsLowest([], limit);
    } else {
      LookingDown(all[..j], limit, all[..j - 1], all[j - 1],
                  if Within(all[j - 1], limit) then all[j - 1].gap else limit);
      if Within(all[j - 1], limit) {
        var t := current[j - 1];
        var next := current[j - 1 := Robbed(t)];
        assert all[j - 1].open == Offers(t);
        assert Offered(next, self, geo)[..j - 1] == all[..j - 1];
        ReclaimingBelow(next, self, geo, j - 1, all[j - 1].gap, OldestId(current[j - 1]));
        assert forall k :: 0 <= k < |current| && k != j - 1 ==> next[k] == current[k];
      } else {
        ReclaimingBelow(current, self, geo, j - 1, limit, id);
      }
    }
  }

  /** Reclaiming takes the oldest id of every host that was nearer than the limit in force when it was looked at; the id
      that is used is that of the last of them, and there is one iff a host that offers an id is within the limit.  */
  lemma ReclaimingTakesFrom(current: seq<Trackable>, self: Trackable, geo: Geometry, limit: real)
    ensures var r, hosts := GetLatentId(current, self, geo, |current|, limit, 0), Offered(current, self, geo);
      && (forall k :: 0 <= k < |current| ==>
          r.0[k] == if Chosen(hosts, limit, k) then Robbed(current[k]) else current[k])
      && (SomeWithin(hosts, limit) ==>
            exists k: nat :: k < |current| && LowestChosen(hosts, limit, k) && r.1 == OldestId(current[k]))
      && (!SomeWithin(hosts, limit) ==> r.1 == 0)
  {
    hide Get, Robbed, OldestId, LowestChosen, Chosen, SomeWithin;
    var hosts := Offered(current, self, geo);
    ReclaimingBelow(current, self, geo, |current|, limit, 0);
    assert hosts[..|current|] == hosts;
    ChosenIffWithin(hosts, limit);
    if SomeWithin(hosts, limit) {
      var k: nat :| LowestChosen(hosts, limit, k);
      LowestIsHost(hosts, limit, k);
    } else {
      NothingIsChosen(hosts, limit);
    }
  }

  lemma LowestIsHost(hosts: seq<Host>, limit: real, k: nat)
    requires LowestChosen(hosts, limit, k)
    ensures k < |hosts|
  {
  }

  lemma NothingIsChosen(hosts: seq<Host>, limit: real)
    requires !SomeWithin(hosts, limit)
    ensures NoneChosen(hosts, limit)
  {
    NoneWithin(hosts, limit, 0);
  }

  /** While nothing moves, a nearest host's id is used, and every host nearer than the limit and than all offering hosts
      behind it loses one.  */
  lemma ReclaimingAtRest(current: seq<Trackable>, self: Trackable, geo: Geometry, limit: real)
    requires AtRest(Offered(current, self, geo))
    ensures var r, hosts := GetLatentId(current, self, geo, |current|, limit, 0), Offered(current, self, geo);
      && (forall k :: 0 <= k < |current| ==>
            r.0[k] == if Undercuts(hosts, limit, k) then Robbed(current[k]) else current[k])
      && (SomeWithin(hosts, limit) ==>
          exists k: nat :: k < |current| && Nearest(hosts, k) && r.1 == OldestId(current[k]))
  {
    hide Robbed, OldestId, SomeWithin, GetLatentId, LowestChosen, Chosen, Undercuts, Nearest;
    ReclaimingTakesFrom(current, self, geo, limit);
    var r, hosts := GetLatentId(current, self, geo, |current|, limit, 0), Offered(current, self, geo);
    forall k: nat
      ensures Chosen(hosts, limit, k) <==> Undercuts(hosts, limit, k)
      ensures LowestChosen(hosts, limit, k) ==> Nearest(hosts, k)
    {
      ChosenAtRest(hosts, limit, k);
    }
    if SomeWithin(hosts, limit) {
      var k: nat :| k < |current| && LowestChosen(hosts, limit, k) && r.1 == OldestId(current[k]);
      assert k < |current| && Nearest(hosts, k);
    }
  }

  // ---- what is lost ----

  ghost predicate NoOtherIsLost(before: seq<Trackable>, after: seq<Trackable>, id: nat) {
    forall x: nat :: x != id ==> Count(after, x) == Count(before, x)
  }

  lemma RobbedUses(t: Trackable, x: nat)
    requires Offers(t)
    ensures Uses(Robbed(t), x) <= Uses(t, x) && (x != OldestId(t) ==> Uses(Robbed(t), x) == Uses(t, x))
    ensures !t.erasable ==> Uses(Robbed(t), OldestId(t)) < Uses(t, OldestId(t))
  {
    hide Remove, Oldest;
    RemoveCounts(t.latentIds, OldestId(t), x);
    RemoveCounts(t.latentIds, OldestId(t), OldestId(t));
    OldestIsHeld(t.latentIds, None);
    HoldsIsCounted(t.latentIds, OldestId(t));
  }

  lemma TwoUsers(c: seq<Trackable>, k: nat, l: nat, x: nat)
    requires k < l < |c| && Uses(c[k], x) > 0 && Uses(c[l], x) > 0
    ensures Count(c, x) >= 2
  {
    hide Count, Uses;
    CountAt(c, l, x);
    CountAt(c[..l], k, x);
  }

  lemma OneUsesLess(a: seq<Trackable>, b: seq<Trackable>, k: nat, x: nat)
    requires k < |a| == |b| && Uses(a[k], x) < Uses(b[k], x)
    requires forall i :: 0 <= i < |a| ==> Uses(a[i], x) <= Uses(b[i], x)
    ensures Count(a, x) < Count(b, x)
  {
    hide Count, Uses;
    CountAt(a, k, x);
    CountAt(b, k, x);
    PointwiseCount(a[..k], b[..k], x);
    PointwiseCount(a[k + 1..], b[k + 1..], x);
  }

  /** While every id is in use at most once, reclaiming loses no id except the one it returns iff no other host that
      offers one is within the distance of the first that is within the limit.  */
  lemma ReclaimingLosesNothingIff(current: seq<Trackable>, self: Trackable, geo: Geometry, limit: real)
    requires NoneErasable(current, |current|) && forall x: nat :: Count(current, x) <= 1
    ensures var r := GetLatentId(current, self, geo, |current|, limit, 0);
      NoOtherIsLost(current, r.0, r.1) <==> Lonely(Offered(current, self, geo), limit)
  {
    hide Robbed, OldestId, LowestChosen, Chosen, SomeWithin, Lonely, Count, GetLatentId, Get;
    var hosts, r := Offered(current, self, geo), GetLatentId(current, self, geo, |current|, limit, 0);
    ReclaimingTakesFrom(current, self, geo, limit);
    LonelyIffOnlyOne(hosts, limit);
    ChosenOffers(current, self, geo, limit);
    if OnlyOneChosen(hosts, limit) {
      forall x: nat | x != r.1 ensures Count(r.0, x) == Count(current, x) {
        OneIsTaken(current, self, geo, limit, x);
      }
    } else {
      var k: nat, l: nat :| Chosen(hosts, limit, k) && Chosen(hosts, limit, l) && k != l;
      TwoAreTaken(current, self, geo, limit, k, l);
    }
  }

  lemma ChosenOffers(current: seq<Trackable>, self: Trackable, geo: Geometry, limit: real)
    ensures forall k: nat :: Chosen(Offered(current, self, geo), limit, k) ==> k < |current| && Offers(current[k])
    ensures forall k: nat :: LowestChosen(Offered(current, self, geo), limit, k) ==>
      Chosen(Offered(current, self, geo), limit, k)
  {
  }

  lemma OneIsTaken(current: seq<Trackable>, self: Trackable, geo: Geometry, limit: real, x: nat)
    requires OnlyOneChosen(Offered(current, self, geo), limit)
    requires x != GetLatentId(current, self, geo, |current|, limit, 0).1
    ensures Count(GetLatentId(current, self, geo, |current|, limit, 0).0, x) == Count(current, x)
  {
    hide Robbed, OldestId, LowestChosen, Chosen, SomeWithin, Count, GetLatentId, Get, Uses;
    var hosts, r := Offered(current, self, geo), GetLatentId(current, self, geo, |current|, limit, 0);
    ReclaimingTakesFrom(current, self, geo, limit);
    ChosenOffers(current, self, geo, limit);
    ChosenIffWithin(hosts, limit);
    forall k | 0 <= k < |current| ensures Uses(r.0[k], x) == Uses(current[k], x) {
      if Chosen(hosts, limit, k) {
        var m := SomeLowest(hosts, limit, k);
        RobbedUses(current[k], x);
      }
    }
    PointwiseCount(r.0, current, x);
    PointwiseCount(current, r.0, x);
  }

  lemma TwoAreTaken(current: seq<Trackable>, self: Trackable, geo: Geometry, limit: real, k: nat, l: nat)
    requires NoneErasable(current, |current|) && forall x: nat :: Count(current, x) <= 1
    requires Chosen(Offered(current, self, geo), limit, k) && Chosen(Offered(current, self, geo), limit, l) && k != l
    ensures var r := GetLatentId(current, self, geo, |current|, limit, 0); !NoOtherIsLost(current, r.0, r.1)
  {
    hide Robbed, OldestId, LowestChosen, Chosen, SomeWithin, Count, GetLatentId, Get, Uses;
    var hosts, r := Offered(current, self, geo), GetLatentId(current, self, geo, |current|, limit, 0);
    ReclaimingTakesFrom(current, self, geo, limit);
    ChosenOffers(current, self, geo, limit);
    ChosenIffWithin(hosts, limit);
    var first := SomeLowest(hosts, limit, k);
    var m: nat :| m < |current| && LowestChosen(hosts, limit, m) && r.1 == OldestId(current[m]);
    var other := if k == m then l else k;
    var x := OldestId(current[other]);
    RobbedUses(current[other], x);
    RobbedUses(current[m], r.1);
    if x == r.1 {
      TwoUsers(current, if m < other then m else other, if m < other then other else m, x);
    }
    forall i | 0 <= i < |current| ensures Uses(r.0[i], x) <= Uses(current[i], x) {
      if Chosen(hosts, limit, i) {
        RobbedUses(current[i], x);
      }
    }
    OneUsesLess(r.0, current, other, x);
  }

  /** Two hosts with one id each, the nearer one in front: the id of the farther one is lost. */
  lemma ReclaimingLosesAnId(a: Trackable, b: Trackable, self: Trackable, geo: Geometry)
    requires a.isActivated && b.isActivated
    requires a.latentIds == [LatentId(8, 5)] && b.latentIds == [LatentId(9, 5)]
    requires geo.distance(a.key, self.key) == 1.0 && geo.distance(b.key, self.key) == 2.0
    requires geo.reach(self.key, a.key) == geo.reach(self.key, b.key) == 0.0
    ensures GetLatentId([a, b], self, geo, 2, 9.0, 0) == ([a.(latentIds := []), b.(latentIds := [])], 8)
  {
    var l, m := [LatentId(8, 5)], [LatentId(9, 5)];
    assert l[1..] == [] && m[1..] == [];
    assert Get(l) == Some(8) && Get(m) == Some(9);
    assert Remove(l, 8) == [] && Remove(m, 9) == [];
    var next := [a, b][1 := b.(latentIds := [])];
    assert GetLatentId([a, b], self, geo, 2, 9.0, 0) == GetLatentId(next, self, geo, 1, 2.0, 9);
    assert next[0 := a.(latentIds := [])] == [a.(latentIds := []), b.(latentIds := [])];
  }
}
