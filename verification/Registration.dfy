/** Registration of several sensors: pairwise measured matrices are closed under composition by ten
    relaxation passes, and every sensor is then placed in the frame of the first sensor it is linked to.  */
module Registration {
  import opened Affine
  import opened Device
  import opened Walks

  /** The outcome of matching the markers of a lower-numbered sensor against a higher-numbered one. */
  datatype Measurement = Measurement(distance: real, me: Matrix3H, other: Matrix3H)

  const PASSES: nat := 10

  // ---- one relaxation step ----

  function Linked(t: Table, i: nat, j: nat, b: BasisChange): Table
    requires Square(t) && i < |t| && j < |t| && i != j && Invertible(b.matrix)
  {
    var t' := t[i := t[i][j := b]];
    t'[j := t'[j][i := BasisChange(Inverse(b.matrix), true, b.error)]]
  }

  function Via(t: Table, i: nat, j: nat, k: nat): BasisChange
    requires Square(t) && i < |t| && j < |t| && k < |t|
  {
    BasisChange(Mul(t[k][j].matrix, t[i][k].matrix), true, t[i][k].error + t[k][j].error)
  }

  predicate Beats(t: Table, i: nat, j: nat, k: nat)
    requires Square(t) && i < |t| && j < |t| && k < |t|
  {
    && t[i][k].valid && t[k][j].valid
    && (!t[i][j].valid || t[i][k].error + t[k][j].error < t[i][j].error)
  }

  /** A detour replaces an entry iff it exists and there was none or it costs strictly less: of equal ones the first
      stays. */
  lemma OnlyBetterReplaces(t: Table, i: nat, j: nat, k: nat)
    requires Square(t) && i < |t| && j < |t| && k < |t|
    ensures Beats(t, i, j, k) && t[i][j].valid ==> Via(t, i, j, k).error < t[i][j].error
    ensures !Beats(t, i, j, k) && t[i][j].valid && t[i][k].valid && t[k][j].valid ==>
      t[i][j].error <= Via(t, i, j, k).error
    ensures t[i][j].valid && Via(t, i, j, k).error == t[i][j].error ==> !Beats(t, i, j, k)
    ensures !t[i][j].valid ==> (Beats(t, i, j, k) <==> t[i][k].valid && t[k][j].valid)
  {
  }

  lemma LinkedEntries(t: Table, i: nat, j: nat, b: BasisChange)
    requires Square(t) && i < |t| && j < |t| && i != j && Invertible(b.matrix)
    ensures Square(Linked(t, i, j, b)) && |Linked(t, i, j, b)| == |t|
    ensures Linked(t, i, j, b)[i][j] == b
    ensures Linked(t, i, j, b)[j][i] == BasisChange(Inverse(b.matrix), true, b.error)
    ensures forall p, q :: 0 <= p < |t| && 0 <= q < |t| && (p, q) != (i, j) && (p, q) != (j, i) ==>
      Linked(t, i, j, b)[p][q] == t[p][q]
  {
    hide Det, Mul, Inverse;
  }

  lemma LinkedIsWellFormed(t: Table, i: nat, j: nat, b: BasisChange)
    requires WellFormed(t) && i < |t| && j < |t| && i != j
    requires b.valid && Invertible(b.matrix) && b.error >= 0.0
    ensures WellFormed(Linked(t, i, j, b))
  {
    hide Det, Mul, Inverse;
    LinkedEntries(t, i, j, b);
    InvertiblesFormAGroup(b.matrix, b.matrix);
    var t': Table := Linked(t, i, j, b);
    forall p, q | 0 <= p < |t| && 0 <= q < |t| ensures Mirrored(t'[p][q], t'[q][p]) {
      assert Mirrored(t[p][q], t[q][p]);
    }
  }

  /** A detour is the cost and the composition of a walk. */
  lemma DetourIsWalk(t0: Table, i: nat, k: nat, j: nat, a: BasisChange, b: BasisChange, u: seq<nat>, v: seq<nat>)
    requires WellFormed(t0) && Witnesses(t0, u, i, k, a) && Witnesses(t0, v, k, j, b)
    ensures |v| > 0
    ensures Witnesses(t0, Joined(u, v), i, j, BasisChange(Mul(b.matrix, a.matrix), true, a.error + b.error))
  {
    hide Det, Mul, Inverse, WellFormed, Cost, Composed;
    JoinedWalks(t0, u, v);
  }

  /** Walking back inverts the matrix and keeps the error. */
  lemma ReturnIsWalk(t0: Table, w: seq<nat>, i: nat, j: nat, b: BasisChange)
    requires WellFormed(t0) && Witnesses(t0, w, i, j, b)
    ensures Invertible(b.matrix) && b.error >= 0.0
    ensures Witnesses(t0, Backwards(w), j, i, BasisChange(Inverse(b.matrix), true, b.error))
  {
    hide Det, Mul, Inverse, WellFormed;
    BackwardsWalk(t0, w);
    CostIsNonNegative(t0, w);
  }

  /** A relaxation step keeps every property of the table and only improves it. */
  lemma StepKeeps(t0: Table, t: Table, i: nat, j: nat, k: nat)
    requires WellFormed(t0) && WellFormed(t) && Sound(t0, t)
    requires i < |t| && j < |t| && k < |t| && i != j && Beats(t, i, j, k)
    ensures Invertible(Via(t, i, j, k).matrix)
    ensures var t' := Linked(t, i, j, Via(t, i, j, k));
      WellFormed(t') && |t'| == |t| && Sound(t0, t') && Improves(t, t') && t'[i][j] == Via(t, i, j, k)
  {
    hide Det, Mul, Inverse, Witnesses;
    var b := Via(t, i, j, k);
    var u :| Witnesses(t0, u, i, k, t[i][k]);
    var v :| Witnesses(t0, v, k, j, t[k][j]);
    DetourIsWalk(t0, i, k, j, t[i][k], t[k][j], u, v);
    var w := Joined(u, v);
    ReturnIsWalk(t0, w, i, j, b);
    LinkedEntries(t, i, j, b);
    LinkedIsWellFormed(t, i, j, b);
    assert Mirrored(t[i][j], t[j][i]);
    LinkIsSound(t0, t, i, j, b, w);
  }

  lemma LinkIsSound(t0: Table, t: Table, i: nat, j: nat, b: BasisChange, w: seq<nat>)
    requires Square(t0) && Square(t) && Sound(t0, t) && i < |t| && j < |t| && i != j && Invertible(b.matrix)
    requires Witnesses(t0, w, i, j, b)
    requires Witnesses(t0, Backwards(w), j, i, BasisChange(Inverse(b.matrix), true, b.error))
    ensures Square(Linked(t, i, j, b)) && Sound(t0, Linked(t, i, j, b))
  {
    hide Det, Mul, Inverse, Witnesses;
    LinkedEntries(t, i, j, b);
  }

  lemma WellFormedIsSquare(t: Table)
    requires WellFormed(t)
    ensures Square(t)
  {
  }

  lemma ImprovesItself(t: Table)
    requires Square(t)
    ensures Improves(t, t)
  {
  }

  lemma ImprovesTwice(s: Table, t: Table, u: Table)
    requires Square(s) && Square(t) && Square(u) && Improves(s, t) && Improves(t, u)
    ensures Improves(s, u)
  {
  }

  lemma StaysRelaxed(s: Table, t: Table, u: Table, i: nat, j: nat, k: nat)
    requires Square(s) && Square(t) && Square(u) && |s| == |t| && i < |s| && j < |s| && k < |s|
    requires RelaxedAt(s, t, i, j, k) && Improves(t, u)
    ensures RelaxedAt(s, u, i, j, k)
  {
  }

  /** Relaxing against k leaves the pair no dearer than the detour was at the start of the pass. */
  lemma StepRelaxes(s: Table, t: Table, u: Table, i: nat, j: nat, k: nat)
    requires Square(s) && Square(t) && Square(u) && i < |t| && j < |t| && k < |t|
    requires Improves(s, t) && Improves(t, u)
    requires u[i][j] == if Beats(t, i, j, k) then Via(t, i, j, k) else t[i][j]
    ensures RelaxedAt(s, u, i, j, k)
  {
    hide Mul;
  }

  /** Pairs above the diagonal relaxed against every intermediate sensor are relaxed everywhere. */
  lemma UpperTriangleSuffices(s: Table, t: Table)
    requires WellFormed(s) && WellFormed(t) && |s| == |t|
    requires forall i, j, k :: 0 <= i < j < |s| && 0 <= k < |s| ==> RelaxedAt(s, t, i, j, k)
    ensures Relaxed(s, t)
  {
    hide Det, Mul, Inverse;
    forall i, j, k | 0 <= i < |s| && 0 <= j < |s| && 0 <= k < |s| ensures RelaxedAt(s, t, i, j, k) {
      assert Mirrored(s[i][k], s[k][i]) && Mirrored(s[k][j], s[j][k]) && Mirrored(t[i][j], t[j][i]);
      if j < i {
        assert RelaxedAt(s, t, j, i, k);
      }
    }
  }

  ghost predicate AllValid(t: Table) {
    Square(t) && forall i, j :: 0 <= i < |t| && 0 <= j < |t| ==> t[i][j].valid
  }

  lemma UpperTriangleIsComplete(t: Table)
    requires WellFormed(t)
    ensures (forall i, j :: 0 <= i < j < |t| ==> t[i][j].valid) <==> AllValid(t)
  {
    hide Det, Mul, Inverse;
    if forall i, j :: 0 <= i < j < |t| ==> t[i][j].valid {
      forall i, j | 0 <= i < |t| && 0 <= j < |t| ensures t[i][j].valid {
        assert Mirrored(t[i][j], t[j][i]);
      }
    }
  }

  function Hops(passes: nat): nat {
    if passes == 0 then 1 else 2 * Hops(passes - 1)
  }

  lemma TenPasses()
    ensures Hops(PASSES) == 1024
  {
    assert Hops(5) == 32;
    assert Hops(10) == 32 * Hops(5);
  }

  // ---- linking ----

  ghost predicate Usable(measure: (nat, nat) -> Measurement, n: nat) {
    forall a: nat, b: nat :: a < b < n ==> Invertible(measure(a, b).me) && Invertible(measure(a, b).other)
  }

  /** Both sensors delivered data and their markers matched closely enough. */
  predicate Matched(measure: (nat, nat) -> Measurement, ready: seq<bool>, limit: real, a: nat, b: nat)
    requires a < |ready| && b < |ready|
  {
    ready[a] && ready[b] && measure(a, b).distance < limit
  }

  function MeasuredChange(m: Measurement): BasisChange
    requires Invertible(m.other)
  {
    BasisChange(Mul(Inverse(m.other), m.me), true, m.distance * m.distance)
  }

  /** The table of the measurements alone: entry (i, j) comes from matching the lower against the higher. */
  ghost predicate IsMeasured(t: Table, measure: (nat, nat) -> Measurement, ready: seq<bool>, limit: real)
    requires Usable(measure, |ready|)
  {
    && Square(t) && |t| == |ready|
    && (forall i :: 0 <= i < |t| ==> t[i][i] == SELF)
    && (forall i, j :: 0 <= i < j < |t| ==> PairMeasured(t, measure, ready, limit, i, j))
  }

  ghost predicate PairMeasured(t: Table, measure: (nat, nat) -> Measurement, ready: seq<bool>, limit: real, i: nat,
                               j: nat)
    requires Square(t) && |t| == |ready| && Usable(measure, |ready|) && i < j < |t|
  {
    if Matched(measure, ready, limit, i, j)
    then
      var b := MeasuredChange(measure(i, j));
      t[i][j] == b && Invertible(b.matrix) && t[j][i] == BasisChange(Inverse(b.matrix), true, b.error)
    else Unlinked(t, i, j)
  }

  ghost predicate Unlinked(t: Table, i: nat, j: nat)
    requires Square(t) && i < |t| && j < |t|
  {
    t[i][j] == NO_CHANGE && t[j][i] == NO_CHANGE
  }

  /** The loops have dealt with every pair whose higher sensor is above d0, and with those of d0 whose
      lower sensor is at least d1. */
  ghost predicate LinkedDownTo(t: Table, measure: (nat, nat) -> Measurement, ready: seq<bool>, limit: real, d0: nat,
                               d1: nat)
    requires Usable(measure, |ready|)
  {
    && Square(t) && |t| == |ready|
    && (forall i :: 0 <= i < |t| ==> t[i][i] == SELF)
    && (forall i, j :: 0 <= i < j < |t| && (j > d0 || (j == d0 && i >= d1)) ==>
      PairMeasured(t, measure, ready, limit, i, j))
    && (forall i, j :: 0 <= i < j < |t| && !(j > d0 || (j == d0 && i >= d1)) ==> Unlinked(t, i, j))
  }

  lemma NothingLinkedYet(t: Table, measure: (nat, nat) -> Measurement, ready: seq<bool>, limit: real)
    requires Usable(measure, |ready|) && Square(t) && |t| == |ready|
    requires forall i, j :: 0 <= i < |t| && 0 <= j < |t| ==> t[i][j] == if i == j then SELF else NO_CHANGE
    ensures WellFormed(t) && LinkedDownTo(t, measure, ready, limit, |t|, 0)
  {
    hide Det, Mul, Inverse, MeasuredChange, Matched;
    IdentityIsOwnInverse();
  }

  lemma NextRow(t: Table, measure: (nat, nat) -> Measurement, ready: seq<bool>, limit: real, d0: nat)
    requires Usable(measure, |ready|) && LinkedDownTo(t, measure, ready, limit, d0 + 1, 0)
    ensures LinkedDownTo(t, measure, ready, limit, d0, d0)
  {
    hide Det, Mul, Inverse, MeasuredChange, Matched, PairMeasured;
  }

  lemma LinkedDownToIsSized(t: Table, measure: (nat, nat) -> Measurement, ready: seq<bool>, limit: real, d0: nat,
                            d1: nat)
    requires Usable(measure, |ready|) && LinkedDownTo(t, measure, ready, limit, d0, d1)
    ensures Square(t) && |t| == |ready|
  {
  }

  lemma NextPair(s: Table, t: Table, measure: (nat, nat) -> Measurement, ready: seq<bool>, limit: real, d0: nat,
                 d1: nat)
    requires Usable(measure, |ready|) && d1 < d0 < |ready| && LinkedDownTo(s, measure, ready, limit, d0, d1 + 1)
    requires Invertible(MeasuredChange(measure(d1, d0)).matrix)
    requires Square(s) && |s| == |ready|
    requires t ==
      if Matched(measure, ready, limit, d1, d0) then Linked(s, d1, d0, MeasuredChange(measure(d1, d0))) else s
    ensures LinkedDownTo(t, measure, ready, limit, d0, d1)
  {
    hide Det, Mul, Inverse, MeasuredChange, Matched, Linked;
    if Matched(measure, ready, limit, d1, d0) {
      LinkedEntries(s, d1, d0, MeasuredChange(measure(d1, d0)));
      forall i, j | 0 <= i < j < |t| && (j > d0 || (j == d0 && i >= d1))
        ensures PairMeasured(t, measure, ready, limit, i, j)
      {
        assert (i, j) != (d1, d0) ==> PairMeasured(s, measure, ready, limit, i, j);
      }
      forall i, j | 0 <= i < j < |t| && !(j > d0 || (j == d0 && i >= d1)) ensures Unlinked(t, i, j) {
        assert Unlinked(s, i, j);
      }
    } else {
      assert Unlinked(s, d1, d0);
    }
  }

  lemma AllLinked(t: Table, measure: (nat, nat) -> Measurement, ready: seq<bool>, limit: real, d0: nat)
    requires Usable(measure, |ready|) && LinkedDownTo(t, measure, ready, limit, d0, 0) && d0 <= 1
    ensures IsMeasured(t, measure, ready, limit)
  {
    hide Det, Mul, Inverse, MeasuredChange, Matched, PairMeasured;
  }

  lemma MeasuredChangeIsSound(m: Measurement)
    requires Invertible(m.me) && Invertible(m.other)
    ensures MeasuredChange(m).valid && Invertible(MeasuredChange(m).matrix) && MeasuredChange(m).error >= 0.0
  {
    hide Det, Mul, Inverse;
    InverseIsInvertible(m.other);
    InvertiblesFormAGroup(Inverse(m.other), m.me);
    SquareIsNonNegative(m.distance);
  }

  lemma SquareIsNonNegative(x: real)
    ensures x * x >= 0.0
  {
  }

  // ---- the frame each sensor ends in ----

  /** The first sensor at or after `from` that a row has a valid entry for; past the end if there is none. */
  function FirstValid(row: seq<BasisChange>, from: nat): (k: nat)
    requires from <= |row|
    ensures from <= k <= |row|
    ensures k < |row| ==> row[k].valid
    ensures forall i :: from <= i < k ==> !row[i].valid
    decreases |row| - from
  {
    if from == |row| || row[from].valid then from else FirstValid(row, from + 1)
  }

  ghost function FrameOf(t: Table, i: nat): nat
    requires i < |t|
  {
    FirstValid(t[i], 0)
  }

  /** A sensor stands where its first valid change of basis puts it. */
  ghost predicate PlacedAt(t: Table, d: nat, matrix: Matrix3H) {
    d < |t| && FrameOf(t, d) < |t| && FrameOf(t, d) < |t[d]| && matrix == t[d][FrameOf(t, d)].matrix
  }

  lemma FrameIsFirst(t: Table, i: nat, j: nat)
    requires Square(t) && i < |t| && j < |t| && t[i][j].valid
    ensures FrameOf(t, i) < |t| && t[i][FrameOf(t, i)].valid && FrameOf(t, i) <= j
  {
  }

  lemma ConnectedIsTransitive(t0: Table, i: nat, j: nat, k: nat)
    requires WellFormed(t0) && Connected(t0, i, j) && Connected(t0, j, k)
    ensures Connected(t0, i, k)
  {
    hide Det, Mul, Inverse;
    var u :| WalkBetween(t0, u, i, j);
    var v :| WalkBetween(t0, v, j, k);
    JoinedWalks(t0, u, v);
    assert WalkBetween(t0, Joined(u, v), i, k);
  }

  lemma ConnectedIsSymmetric(t0: Table, i: nat, j: nat)
    requires WellFormed(t0) && Connected(t0, i, j)
    ensures Connected(t0, j, i)
  {
    hide Det, Mul, Inverse;
    var u :| WalkBetween(t0, u, i, j);
    BackwardsWalk(t0, u);
    assert WalkBetween(t0, Backwards(u), j, i);
  }

  ghost predicate Exact(t0: Table, t: Table)
    requires Square(t0) && Square(t)
  {
    |t| == |t0| && forall a, b :: 0 <= a < |t| && 0 <= b < |t| ==> (t[a][b].valid <==> Connected(t0, a, b))
  }

  lemma ExactAt(t0: Table, t: Table, a: nat, b: nat)
    requires Square(t0) && Square(t) && Exact(t0, t) && a < |t| && b < |t|
    ensures t[a][b].valid <==> Connected(t0, a, b)
  {
  }

  /** With exact validity, the frame of a sensor belongs to a sensor of its component, and connected
      sensors have one frame. */
  lemma ConnectedShareTheirFrame(t0: Table, t: Table, i: nat, j: nat)
    requires WellFormed(t0) && Square(t) && Exact(t0, t) && i < |t| && j < |t| && t[i][i].valid && t[j][j].valid
    requires Connected(t0, i, j)
    ensures FrameOf(t, i) == FrameOf(t, j)
  {
    WellFormedIsSquare(t0);
    hide *;
    ConnectedIsSymmetric(t0, i, j);
    FrameIsFirst(t, i, i);
    FrameIsFirst(t, j, j);
    ExactAt(t0, t, i, FrameOf(t, i));
    ExactAt(t0, t, j, FrameOf(t, j));
    ConnectedIsTransitive(t0, j, i, FrameOf(t, i));
    ConnectedIsTransitive(t0, i, j, FrameOf(t, j));
    ExactAt(t0, t, j, FrameOf(t, i));
    ExactAt(t0, t, i, FrameOf(t, j));
    FrameIsFirst(t, j, FrameOf(t, i));
    FrameIsFirst(t, i, FrameOf(t, j));
  }

  lemma SameFrameIsConnected(t0: Table, t: Table, i: nat, j: nat)
    requires WellFormed(t0) && Square(t) && Exact(t0, t) && i < |t| && j < |t| && t[i][i].valid && t[j][j].valid
    requires FrameOf(t, i) == FrameOf(t, j)
    ensures Connected(t0, i, j)
  {
    WellFormedIsSquare(t0);
    hide *;
    FrameIsFirst(t, i, i);
    FrameIsFirst(t, j, j);
    ExactAt(t0, t, i, FrameOf(t, i));
    ExactAt(t0, t, j, FrameOf(t, j));
    ConnectedIsSymmetric(t0, j, FrameOf(t, j));
    ConnectedIsTransitive(t0, i, FrameOf(t, i), j);
  }

  lemma AgreesAt(t: Table, pose: seq<Matrix3H>, i: nat, j: nat)
    requires Square(t) && Agrees(t, pose) && i < |t| && j < |t| && t[i][j].valid
    ensures Mul(pose[j], t[i][j].matrix) == pose[i]
  {
    hide Det, Mul, Inverse;
  }

  class LidarDevices {
    var devices: seq<LidarDevice>
    var basisChanges: Table

    ghost predicate Valid()
      reads this, devices
    {
      && (forall a, b :: 0 <= a < b < |devices| ==> devices[a] != devices[b])
      && (forall d :: 0 <= d < |devices| ==> devices[d].Valid())
    }

    constructor (devices: seq<LidarDevice>)
      requires forall a, b :: 0 <= a < b < |devices| ==> devices[a] != devices[b]
      requires forall d :: 0 <= d < |devices| ==> devices[d].Valid()
      ensures Valid() && this.devices == devices
    {
      this.devices := devices;
      basisChanges := [];
    }

    method InitBasisChanges()
      modifies this`basisChanges
      ensures Square(basisChanges) && |basisChanges| == |devices|
      ensures forall i, j :: 0 <= i < |devices| && 0 <= j < |devices| ==>
        basisChanges[i][j] == if i == j then SELF else NO_CHANGE
    {
      basisChanges := [];
      var d := 0;
      while d < |devices|
        invariant 0 <= d <= |devices| && |basisChanges| == d
        invariant forall i :: 0 <= i < d ==> |basisChanges[i]| == |devices|
        invariant forall i, j :: 0 <= i < d && 0 <= j < |devices| ==>
          basisChanges[i][j] == if i == j then SELF else NO_CHANGE
      {
        var row: seq<BasisChange> := [];
        var i := |devices|;
        while i > 0
          invariant 0 <= i <= |devices| && |row| == |devices| - i
          invariant forall k :: 0 <= k < |row| ==> row[k] == NO_CHANGE
        {
          row := row + [NO_CHANGE];
          i := i - 1;
        }
        row := row[d := row[d].(valid := true)];
        basisChanges := basisChanges + [row];
        d := d + 1;
      }
    }

    /** The pairs measured in one calibration run, entered from the highest sensor down. */
    method LinkMeasurements(measure: (nat, nat) -> Measurement, ready: seq<bool>, limit: real)
      requires |ready| == |devices| && Usable(measure, |ready|)
      modifies this`basisChanges
      ensures IsMeasured(basisChanges, measure, ready, limit) && WellFormed(basisChanges)
    {
      hide Det, Mul, Inverse, MeasuredChange, Linked, LinkedDownTo;
      InitBasisChanges();
      NothingLinkedYet(basisChanges, measure, ready, limit);
      var n := |devices|;
      var d0 := n;
      while d0 > 1
        invariant 0 <= d0 <= n && WellFormed(basisChanges)
        invariant LinkedDownTo(basisChanges, measure, ready, limit, d0, 0)
      {
        d0 := d0 - 1;
        var d1 := d0;
        NextRow(basisChanges, measure, ready, limit, d0);
        while d1 > 0
          invariant 0 <= d1 <= d0 < n && WellFormed(basisChanges)
          invariant LinkedDownTo(basisChanges, measure, ready, limit, d0, d1)
        {
          d1 := d1 - 1;
          LinkedDownToIsSized(basisChanges, measure, ready, limit, d0, d1 + 1);
          MeasuredChangeIsSound(measure(d1, d0));
          ghost var before := basisChanges;
          if ready[d0] && ready[d1] {
            var m := measure(d1, d0);
            if m.distance < limit {
              LinkedIsWellFormed(basisChanges, d1, d0, MeasuredChange(m));
              basisChanges := Linked(basisChanges, d1, d0, MeasuredChange(m));
            }
          }
          NextPair(before, basisChanges, measure, ready, limit, d0, d1);
        }
      }
      AllLinked(basisChanges, measure, ready, limit, d0);
    }

    method BasisChangesComplete() returns (complete: bool)
      requires Square(basisChanges) && |basisChanges| == |devices|
      ensures complete <==> forall i, j :: 0 <= i < j < |devices| ==> basisChanges[i][j].valid
    {
      var i := 0;
      while i < |devices| - 1
        invariant 0 <= i <= |devices|
        invariant forall a, b :: 0 <= a < i && a < b < |devices| ==> basisChanges[a][b].valid
      {
        var j := i + 1;
        while j < |devices|
          invariant i < j <= |devices|
          invariant forall b :: i < b < j ==> basisChanges[i][b].valid
        {
          if !basisChanges[i][j].valid {
            return false;
          }
          j := j + 1;
        }
        i := i + 1;
      }
      return true;
    }

    /** All detours of one pair, in order. */
    method RelaxPair(ghost t0: Table, ghost s: Table, i: nat, j: nat)
      requires i < j < |devices| == |basisChanges|
      requires WellFormed(t0) && WellFormed(s) && WellFormed(basisChanges)
      requires |s| == |basisChanges| && Sound(t0, basisChanges) && Improves(s, basisChanges)
      modifies this`basisChanges
      ensures |basisChanges| == |devices| && WellFormed(basisChanges)
      ensures Sound(t0, basisChanges) && Improves(old(basisChanges), basisChanges) && Improves(s, basisChanges)
      ensures forall k :: 0 <= k < |devices| ==> RelaxedAt(s, basisChanges, i, j, k)
    {
      hide Det, Mul, Inverse, Sound, Improves, WellFormed, RelaxedAt, Linked;
      var k := 0;
      WellFormedIsSquare(t0);
      WellFormedIsSquare(s);
      WellFormedIsSquare(basisChanges);
      ImprovesItself(basisChanges);
      while k < |devices|
        invariant 0 <= k <= |devices| == |basisChanges| && Square(basisChanges) && WellFormed(basisChanges)
        invariant Sound(t0, basisChanges) && Improves(old(basisChanges), basisChanges) && Improves(s, basisChanges)
        invariant forall h :: 0 <= h < k ==> RelaxedAt(s, basisChanges, i, j, h)
      {
        ghost var before := basisChanges;
        if Beats(basisChanges, i, j, k) {
          StepKeeps(t0, basisChanges, i, j, k);
          basisChanges := Linked(basisChanges, i, j, Via(basisChanges, i, j, k));
          WellFormedIsSquare(basisChanges);
        } else {
          ImprovesItself(basisChanges);
        }
        ImprovesTwice(s, before, basisChanges);
        ImprovesTwice(old(basisChanges), before, basisChanges);
        StepRelaxes(s, before, basisChanges, i, j, k);
        forall h | 0 <= h < k ensures RelaxedAt(s, basisChanges, i, j, h) {
          StaysRelaxed(s, before, basisChanges, i, j, h);
        }
        k := k + 1;
      }
    }

    /** One pass over all pairs. */
    method Relax(ghost t0: Table)
      requires |basisChanges| == |devices| && WellFormed(t0) && WellFormed(basisChanges) && Sound(t0, basisChanges)
      modifies this`basisChanges
      ensures |basisChanges| == |devices| && WellFormed(basisChanges) && Sound(t0, basisChanges)
      ensures Improves(old(basisChanges), basisChanges) && Relaxed(old(basisChanges), basisChanges)
    {
      hide Det, Mul, Inverse, Sound, Improves, WellFormed, RelaxedAt;
      ghost var s := basisChanges;
      WellFormedIsSquare(t0);
      WellFormedIsSquare(s);
      ImprovesItself(s);
      var i := 0;
      while i < |devices| - 1
        invariant 0 <= i <= |devices| == |basisChanges| && Square(basisChanges) && WellFormed(basisChanges)
        invariant Sound(t0, basisChanges) && Improves(s, basisChanges)
        invariant forall a, b, k :: 0 <= a < i && a < b < |s| && 0 <= k < |s| ==> RelaxedAt(s, basisChanges, a, b, k)
      {
        var j := i + 1;
        while j < |devices|
          invariant i < j <= |devices| == |basisChanges| && Square(basisChanges) && WellFormed(basisChanges)
          invariant Sound(t0, basisChanges) && Improves(s, basisChanges)
          invariant forall a, b, k :: 0 <= a < b < |s| && (a < i || (a == i && b < j)) && 0 <= k < |s| ==>
            RelaxedAt(s, basisChanges, a, b, k)
        {
          ghost var before := basisChanges;
          RelaxPair(t0, s, i, j);
          WellFormedIsSquare(basisChanges);
          forall a, b, k | 0 <= a < b < |s| && (a < i || (a == i && b < j)) && 0 <= k < |s|
            ensures RelaxedAt(s, basisChanges, a, b, k)
          {
            StaysRelaxed(s, before, basisChanges, a, b, k);
          }
          j := j + 1;
        }
        i := i + 1;
      }
      UpperTriangleSuffices(s, basisChanges);
    }

    /** Ten passes: every entry is a walk over the measurements, every walk of up to 1024 hops is matched
        or beaten, and the answer says whether all pairs have become valid. */
    method CalculateBasisChanges() returns (complete: bool)
      requires WellFormed(basisChanges) && |basisChanges| == |devices|
      modifies this`basisChanges
      ensures WellFormed(basisChanges) && |basisChanges| == |devices|
      ensures Sound(old(basisChanges), basisChanges) && Covers(old(basisChanges), basisChanges, 1024)
      ensures complete <==> AllValid(basisChanges)
      ensures |devices| <= 1025 ==> (complete <==> AllConnected(old(basisChanges)))
    {
      hide Det, Mul, Inverse, Sound, Covers, WellFormed, Relaxed, AllValid, AllConnected;
      ghost var t0 := basisChanges;
      WellFormedIsSquare(t0);
      MeasurementsCoverOneHop(t0);
      var step := PASSES;
      while step > 0
        invariant 0 <= step <= PASSES && |basisChanges| == |devices| && Square(basisChanges)
        invariant WellFormed(basisChanges) && Sound(t0, basisChanges) && Covers(t0, basisChanges, Hops(PASSES - step))
      {
        ghost var s := basisChanges;
        Relax(t0);
        WellFormedIsSquare(basisChanges);
        HopsArePositive(PASSES - step);
        Doubling(t0, s, basisChanges, Hops(PASSES - step));
        step := step - 1;
      }
      TenPasses();
      complete := BasisChangesComplete();
      UpperTriangleIsComplete(basisChanges);
      if |devices| <= 1025 {
        AllValidIffConnected(t0, basisChanges);
      }
    }

    /** Each sensor is placed by the first sensor it has a valid change of basis to. */
    method PlaceDevices()
      requires Valid() && WellFormed(basisChanges) && |basisChanges| == |devices|
      modifies devices
      ensures Valid()
      ensures forall d :: 0 <= d < |devices| ==>
        devices[d].viewMatrix == IDENTITY && devices[d].local == old(devices[d].local) &&
        devices[d].deviceMatrix == devices[d].matrix && PlacedAt(basisChanges, d, devices[d].matrix)
    {
      hide Det, Mul, Inverse, WellFormed, FirstValid, FrameOf;
      WellFormedIsSquare(basisChanges);
      var d1 := |devices|;
      while d1 > 0
        invariant 0 <= d1 <= |devices| && Valid()
        invariant forall d :: 0 <= d < |devices| ==> devices[d].local == old(devices[d].local)
        invariant forall d :: d1 <= d < |devices| ==>
          devices[d].viewMatrix == IDENTITY && devices[d].deviceMatrix == devices[d].matrix &&
          PlacedAt(basisChanges, d, devices[d].matrix)
      {
        d1 := d1 - 1;
        SelfIsValid(basisChanges, d1);
        FrameIsFirst(basisChanges, d1, d1);
        var d0 := 0;
        while d0 < |devices|
          invariant 0 <= d0 <= FrameOf(basisChanges, d1)
        {
          if basisChanges[d1][d0].valid {
            break;
          }
          d0 := d0 + 1;
        }
        FrameIsFirst(basisChanges, d1, d0);
        ValidIsInvertible(basisChanges, d1, d0);
        IdentityIsOwnInverse();
        devices[d1].SetDeviceMatrix(basisChanges[d1][d0].matrix);
        devices[d1].SetViewMatrix(IDENTITY);
        IdentityIsNeutral(devices[d1].deviceMatrix);
      }
    }

    /** A whole calibration: link, close, place.  Without sensors nothing happens. */
    method CalculateRegistration(measure: (nat, nat) -> Measurement, ready: seq<bool>, limit: real)
      returns (ghost measured: Table, complete: bool)
      requires Valid() && |ready| == |devices| && Usable(measure, |ready|)
      modifies this`basisChanges, devices
      ensures Valid()
      ensures |devices| == 0 ==> basisChanges == old(basisChanges)
      ensures |devices| > 0 ==>
        && WellFormed(basisChanges) && |basisChanges| == |devices|
        && IsMeasured(measured, measure, ready, limit) && Calibrated(measured, basisChanges)
        && (complete <==> AllValid(basisChanges))
        && (|devices| <= 1025 ==> (complete <==> AllConnected(measured)))
        && (forall pose: seq<Matrix3H> :: MarkersShow(measure, ready, limit, pose) ==>
              StandTrue(basisChanges, pose, devices))
        && (forall d :: 0 <= d < |devices| ==>
              devices[d].viewMatrix == IDENTITY && devices[d].local == old(devices[d].local) &&
              PlacedAt(basisChanges, d, devices[d].matrix))
    {
      hide Det, Mul, Inverse, Sound, Covers, WellFormed, AllValid, AllConnected;
      if |devices| == 0 {
        measured, complete := [], true;
        return;
      }
      LinkMeasurements(measure, ready, limit);
      WellFormedIsSquare(basisChanges);
      measured := basisChanges;
      complete := CalculateBasisChanges();
      WellFormedIsSquare(basisChanges);
      PlaceDevices();
      forall pose: seq<Matrix3H> | MarkersShow(measure, ready, limit, pose)
        ensures StandTrue(basisChanges, pose, devices)
      {
        MarkersAgree(measured, measure, ready, limit, pose);
        SensorsStandTrue(measured, basisChanges, pose, devices);
      }
    }
  }

  lemma HopsArePositive(p: nat)
    ensures Hops(p) >= 1
  {
  }

  // ---- what the markers show ----

  /** Sensors a < b that both are ready and match closely enough are linked, in both directions, and the error of the
      link is the square of the distance between their markers; no others are. */
  lemma LinkedPairs(t: Table, measure: (nat, nat) -> Measurement, ready: seq<bool>, limit: real, a: nat, b: nat)
    requires Usable(measure, |ready|) && IsMeasured(t, measure, ready, limit) && a < b < |ready|
    ensures t[a][b].valid == t[b][a].valid == (ready[a] && ready[b] && measure(a, b).distance < limit)
    ensures t[a][b].valid ==> t[a][b].error == t[b][a].error == measure(a, b).distance * measure(a, b).distance
  {
    hide Det, Mul, Inverse;
    assert PairMeasured(t, measure, ready, limit, a, b);
  }

  /** The markers of every linked pair are seen where sensors with these poses see them: a change of coordinates q takes
      the world to the common system in which the markers of both were placed. */
  ghost predicate MarkersShow(measure: (nat, nat) -> Measurement, ready: seq<bool>, limit: real, pose: seq<Matrix3H>) {
    |pose| == |ready| && (forall i :: 0 <= i < |pose| ==> Invertible(pose[i])) &&
    forall a: nat, b: nat :: a < b < |ready| && ready[a] && ready[b] && measure(a, b).distance < limit ==>
      exists q :: measure(a, b).me == Mul(q, pose[a]) && measure(a, b).other == Mul(q, pose[b])
  }

  /** From one sensor to the other by way of the markers. */
  lemma ByWayOfMarkers(q: Matrix3H, p: Matrix3H, r: Matrix3H)
    requires Invertible(p) && Invertible(r) && Invertible(Mul(q, r))
    ensures var m := Mul(Inverse(Mul(q, r)), Mul(q, p)); Invertible(m) && Mul(r, m) == p && Mul(p, Inverse(m)) == r
  {
    hide Det, Mul, Inverse;
    var o := Mul(q, r);
    LeftInvertible(q, r);
    InvertiblesFormAGroup(q, r);
    InvertiblesFormAGroup(q, p);
    CancelLeft(r, Inverse(q), Mul(q, p));
    CancelRest(q, p);
    var m := Mul(Inverse(o), Mul(q, p));
    assert Mul(r, m) == p;
    InverseIsInvertible(o);
    InvertiblesFormAGroup(Inverse(o), Mul(q, p));
    BackAgain(r, m, p);
  }

  lemma LeftInvertible(q: Matrix3H, r: Matrix3H)
    requires Invertible(r) && Invertible(Mul(q, r))
    ensures Invertible(q)
  {
    hide Mul, Inverse, Det;
    DetMultiplies(q, r);
  }

  lemma CancelLeft(r: Matrix3H, q': Matrix3H, x: Matrix3H)
    requires Invertible(r)
    ensures Mul(r, Mul(Mul(Inverse(r), q'), x)) == Mul(q', x)
  {
    hide Det, Mul, Inverse;
    InverseIsTwoSided(r);
    MulAssociative(Inverse(r), q', x);
    MulAssociative(r, Inverse(r), Mul(q', x));
    IdentityIsNeutral(Mul(q', x));
  }

  lemma CancelRest(q: Matrix3H, p: Matrix3H)
    requires Invertible(q)
    ensures Mul(Inverse(q), Mul(q, p)) == p
  {
    hide Det, Mul, Inverse;
    InverseIsTwoSided(q);
    MulAssociative(Inverse(q), q, p);
    IdentityIsNeutral(p);
  }

  lemma BackAgain(r: Matrix3H, m: Matrix3H, p: Matrix3H)
    requires Invertible(m) && Mul(r, m) == p
    ensures Mul(p, Inverse(m)) == r
  {
    hide Det, Mul, Inverse;
    InverseIsTwoSided(m);
    MulAssociative(r, m, Inverse(m));
    IdentityIsNeutral(r);
  }

  lemma MarkersAgreeAt(t: Table, measure: (nat, nat) -> Measurement, ready: seq<bool>, limit: real,
                       pose: seq<Matrix3H>, a: nat, b: nat)
    requires Usable(measure, |ready|) && IsMeasured(t, measure, ready, limit)
    requires MarkersShow(measure, ready, limit, pose) && a < b < |ready|
    ensures t[a][b].valid ==> Mul(pose[b], t[a][b].matrix) == pose[a]
    ensures t[b][a].valid ==> Mul(pose[a], t[b][a].matrix) == pose[b]
  {
    hide Det, Mul, Inverse, Invertible;
    LinkedPairs(t, measure, ready, limit, a, b);
    if t[a][b].valid {
      assert PairMeasured(t, measure, ready, limit, a, b);
      var q :| measure(a, b).me == Mul(q, pose[a]) && measure(a, b).other == Mul(q, pose[b]);
      ByWayOfMarkers(q, pose[a], pose[b]);
    }
  }

  /** When the markers are seen as sensors with some poses see them, the table of measurements agrees with the poses. */
  lemma MarkersAgree(t: Table, measure: (nat, nat) -> Measurement, ready: seq<bool>, limit: real, pose: seq<Matrix3H>)
    requires Usable(measure, |ready|) && IsMeasured(t, measure, ready, limit)
    requires MarkersShow(measure, ready, limit, pose)
    ensures Agrees(t, pose)
  {
    hide Det, Mul, Inverse, Invertible, PairMeasured;
    forall i, j | 0 <= i < |t| && 0 <= j < |t| && t[i][j].valid ensures Mul(pose[j], t[i][j].matrix) == pose[i] {
      if i == j {
        IdentityIsNeutral(pose[i]);
      } else {
        MarkersAgreeAt(t, measure, ready, limit, pose, if i < j then i else j, if i < j then j else i);
      }
    }
  }

  /** Every sensor stands where it truly does, seen from the sensor in whose frame it was placed. */
  ghost predicate StandTrue(t: Table, pose: seq<Matrix3H>, devices: seq<LidarDevice>)
    reads devices
  {
    |pose| == |devices| == |t| &&
    forall d :: 0 <= d < |devices| ==>
      FrameOf(t, d) < |pose| && Mul(pose[FrameOf(t, d)], devices[d].matrix) == pose[d]
  }

  lemma AgreesIsSized(t: Table, pose: seq<Matrix3H>)
    requires Square(t) && Agrees(t, pose)
    ensures |pose| == |t|
  {
  }

  lemma SensorsStandTrue(t0: Table, t: Table, pose: seq<Matrix3H>, devices: seq<LidarDevice>)
    requires Calibrated(t0, t) && Agrees(t0, pose) && |devices| == |t|
    requires forall d :: 0 <= d < |devices| ==> PlacedAt(t, d, devices[d].matrix)
    ensures StandTrue(t, pose, devices)
  {
    hide Det, Mul, Inverse, Covers, WellFormed, Agrees;
    WellFormedIsSquare(t0);
    AgreesIsSized(t0, pose);
    forall d | 0 <= d < |devices|
      ensures FrameOf(t, d) < |pose| && Mul(pose[FrameOf(t, d)], devices[d].matrix) == pose[d]
    {
      PlacementIsTrue(t0, t, pose, d);
    }
  }

  /** The table a calibration leaves behind: a fixed point of what ten passes guarantee. */
  ghost predicate Calibrated(t0: Table, t: Table) {
    WellFormed(t0) && WellFormed(t) && Sound(t0, t) && Covers(t0, t, 1024)
  }

  /** With up to 1025 sensors ten passes are exact: an entry is valid iff its sensors are connected, and
      its error is the least cost of a walk between them. */
  lemma RegistrationIsExact(t0: Table, t: Table, i: nat, j: nat)
    requires Calibrated(t0, t) && |t0| <= 1025 && i < |t| && j < |t|
    ensures t[i][j].valid <==> Connected(t0, i, j)
    ensures t[i][j].valid ==> exists w :: WalkBetween(t0, w, i, j) && Cost(t0, w) == t[i][j].error
    ensures forall w :: WalkBetween(t0, w, i, j) ==> t[i][j].error <= Cost(t0, w)
  {
    hide Det, Mul, Inverse;
    CheapestWalks(t0, t, 1024);
    if t[i][j].valid {
      var w :| Witnesses(t0, w, i, j, t[i][j]);
      assert WalkBetween(t0, w, i, j) && Cost(t0, w) == t[i][j].error;
    }
  }

  ghost predicate AllConnected(t0: Table) {
    Square(t0) && forall i, j :: 0 <= i < |t0| && 0 <= j < |t0| ==> Connected(t0, i, j)
  }

  /** For up to 1025 sensors all changes of basis are found iff every sensor is connected with every other one. */
  lemma AllValidIffConnected(t0: Table, t: Table)
    requires Calibrated(t0, t) && |t0| <= 1025
    ensures AllValid(t) <==> AllConnected(t0)
  {
    hide Connected, Sound, Covers, WellFormed;
    WellFormedIsSquare(t0);
    WellFormedIsSquare(t);
    SameSize(t0, t);
    forall i, j | 0 <= i < |t| && 0 <= j < |t| ensures t[i][j].valid <==> Connected(t0, i, j) {
      RegistrationIsExact(t0, t, i, j);
    }
  }

  lemma SameSize(t0: Table, t: Table)
    requires Square(t0) && Square(t) && Sound(t0, t)
    ensures |t| == |t0|
  {
  }

  lemma ValidIsInvertible(t: Table, i: nat, j: nat)
    requires WellFormed(t) && i < |t| && j < |t| && t[i][j].valid
    ensures Invertible(t[i][j].matrix)
  {
    hide Det;
    assert Mirrored(t[i][j], t[j][i]);
  }

  lemma SelfIsValid(t: Table, i: nat)
    requires WellFormed(t) && i < |t|
    ensures Square(t) && t[i][i].valid
  {
  }

  /** Each sensor is placed by the lowest-numbered sensor of its component, so two sensors end in one
      frame iff they are connected. */
  lemma FramesAreComponents(t0: Table, t: Table, i: nat, j: nat)
    requires Calibrated(t0, t) && |t0| <= 1025 && i < |t| && j < |t|
    ensures FrameOf(t, i) < |t| && Connected(t0, i, FrameOf(t, i))
    ensures Connected(t0, i, j) ==> FrameOf(t, i) <= j
    ensures Connected(t0, i, j) <==> FrameOf(t, i) == FrameOf(t, j)
  {
    WellFormedIsSquare(t0);
    SelfIsValid(t, i);
    SelfIsValid(t, j);
    ValidityIsExact(t0, t);
    hide *;
    FrameIsFirst(t, i, i);
    ExactAt(t0, t, i, FrameOf(t, i));
    ExactAt(t0, t, i, j);
    if Connected(t0, i, j) {
      FrameIsFirst(t, i, j);
      ConnectedShareTheirFrame(t0, t, i, j);
    } else if FrameOf(t, i) == FrameOf(t, j) {
      SameFrameIsConnected(t0, t, i, j);
    }
  }

  lemma ValidityIsExact(t0: Table, t: Table)
    requires Calibrated(t0, t) && |t0| <= 1025
    ensures Square(t0) && Square(t) && Exact(t0, t)
  {
    hide Det, Mul, Inverse;
    CheapestWalks(t0, t, 1024);
  }

  /** If the measurements agree with some true poses, every sensor is placed at its true pose as seen
      from the sensor whose frame it ends in. */
  lemma PlacementIsTrue(t0: Table, t: Table, pose: seq<Matrix3H>, i: nat)
    requires Calibrated(t0, t) && Agrees(t0, pose) && i < |t|
    ensures FrameOf(t, i) < |t| == |pose| && Mul(pose[FrameOf(t, i)], t[i][FrameOf(t, i)].matrix) == pose[i]
  {
    hide Det, Mul, Inverse, Covers;
    DerivedAgree(t0, t, pose);
    FrameIsFirst(t, i, i);
    AgreesAt(t, pose, i, FrameOf(t, i));
  }
}
