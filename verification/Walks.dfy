/** Pairwise changes of basis between sensors as a weighted graph whose edges carry matrices, and the
    reasoning about its walks: costs and compositions add up along a walk, walks can be reversed and
    shortened, and one relaxation pass doubles the number of hops that are accounted for.  */
module Walks {
  import opened Affine

  /** What one sensor knows about another: the matrix into its coordinates and the error of that matrix. */
  datatype BasisChange = BasisChange(matrix: Matrix3H, valid: bool, error: real)

  const NO_CHANGE := BasisChange(IDENTITY, false, 0.0)
  const SELF := BasisChange(IDENTITY, true, 0.0)

  type Table = seq<seq<BasisChange>>

  ghost predicate Square(t: Table) {
    forall i :: 0 <= i < |t| ==> |t[i]| == |t|
  }

  ghost predicate Mirrored(a: BasisChange, b: BasisChange) {
    a.valid == b.valid &&
    (a.valid ==> a.error == b.error && a.error >= 0.0 && Invertible(a.matrix) && b.matrix == Inverse(a.matrix))
  }

  /** Valid entries come in pairs with one error and mutually inverse matrices; nothing is between a
      sensor and itself. */
  ghost predicate WellFormed(t: Table) {
    && Square(t)
    && (forall i :: 0 <= i < |t| ==> t[i][i] == SELF)
    && (forall i, j :: 0 <= i < |t| && 0 <= j < |t| ==> Mirrored(t[i][j], t[j][i]))
  }

  ghost predicate IsWalk(t: Table, w: seq<nat>)
    requires Square(t)
  {
    && |w| > 0
    && (forall k :: 0 <= k < |w| ==> w[k] < |t|)
    && (forall k :: 0 <= k < |w| - 1 ==> t[w[k]][w[k + 1]].valid)
  }

  ghost predicate WalkBetween(t: Table, w: seq<nat>, i: nat, j: nat)
    requires Square(t)
  {
    IsWalk(t, w) && w[0] == i && w[|w| - 1] == j
  }

  ghost function Cost(t: Table, w: seq<nat>): real
    requires Square(t) && IsWalk(t, w)
  {
    if |w| == 1 then 0.0 else t[w[0]][w[1]].error + Cost(t, w[1..])
  }

  /** The matrix that carries coordinates of the first sensor of a walk into those of its last. */
  ghost function Composed(t: Table, w: seq<nat>): Matrix3H
    requires Square(t) && IsWalk(t, w)
  {
    if |w| == 1 then IDENTITY else Mul(Composed(t, w[1..]), t[w[0]][w[1]].matrix)
  }

  lemma {:induction false} CostIsNonNegative(t: Table, w: seq<nat>)
    requires WellFormed(t) && IsWalk(t, w)
    ensures Cost(t, w) >= 0.0
  {
    hide Det, Mul, Inverse;
    if |w| > 1 {
      assert Mirrored(t[w[0]][w[1]], t[w[1]][w[0]]);
      CostIsNonNegative(t, w[1..]);
    }
  }

  /** Two walks that meet: the second follows the first. */
  ghost function Joined(u: seq<nat>, v: seq<nat>): seq<nat>
    requires |v| > 0
  {
    u + v[1..]
  }

  lemma LongerWalk(t: Table, first: nat, w: seq<nat>)
    requires Square(t) && IsWalk(t, w) && first < |t| && t[first][w[0]].valid
    ensures IsWalk(t, [first] + w)
  {
    var longer := [first] + w;
    forall k | 0 <= k < |longer| - 1 ensures t[longer[k]][longer[k + 1]].valid {
      if k > 0 {
        assert longer[k] == w[k - 1] && longer[k + 1] == w[k];
      }
    }
  }

  lemma {:induction false} JoinedWalks(t: Table, u: seq<nat>, v: seq<nat>)
    requires WellFormed(t) && IsWalk(t, u) && IsWalk(t, v) && u[|u| - 1] == v[0]
    ensures IsWalk(t, Joined(u, v))
    ensures Joined(u, v)[0] == u[0] && Joined(u, v)[|u| + |v| - 2] == v[|v| - 1]
    ensures Cost(t, Joined(u, v)) == Cost(t, u) + Cost(t, v)
    ensures Composed(t, Joined(u, v)) == Mul(Composed(t, v), Composed(t, u))
  {
    hide Det, Mul, Inverse;
    var w := Joined(u, v);
    if |u| == 1 {
      assert w == v;
      IdentityIsNeutral(Composed(t, v));
    } else {
      JoinedWalks(t, u[1..], v);
      var rest := Joined(u[1..], v);
      assert w == [u[0]] + rest;
      assert w[1..] == rest;
      LongerWalk(t, u[0], rest);
      MulAssociative(Composed(t, v), Composed(t, u[1..]), t[u[0]][u[1]].matrix);
    }
  }

  ghost function Backwards(w: seq<nat>): (r: seq<nat>)
    ensures |r| == |w|
    ensures forall k :: 0 <= k < |w| ==> r[k] == w[|w| - 1 - k]
  {
    if |w| == 0 then [] else Backwards(w[1..]) + [w[0]]
  }

  /** A walk taken backwards costs the same and composes to the inverse. */
  lemma {:induction false} BackwardsWalk(t: Table, w: seq<nat>)
    requires WellFormed(t) && IsWalk(t, w)
    ensures IsWalk(t, Backwards(w))
    ensures Cost(t, Backwards(w)) == Cost(t, w)
    ensures Invertible(Composed(t, w)) && Composed(t, Backwards(w)) == Inverse(Composed(t, w))
  {
    hide Det, Mul, Inverse;
    if |w| == 1 {
      assert Backwards(w) == w;
      IdentityIsOwnInverse();
    } else {
      var a, b := w[0], w[1];
      BackwardsWalk(t, w[1..]);
      assert Mirrored(t[a][b], t[b][a]);
      var hop := [b, a];
      assert IsWalk(t, hop);
      assert hop[1..] == [a];
      assert Cost(t, hop) == t[b][a].error;
      assert Composed(t, [a]) == IDENTITY;
      IdentityIsNeutral(t[b][a].matrix);
      assert Composed(t, hop) == t[b][a].matrix;
      JoinedWalks(t, Backwards(w[1..]), hop);
      assert Joined(Backwards(w[1..]), hop) == Backwards(w);
      InvertiblesFormAGroup(Composed(t, w[1..]), t[a][b].matrix);
    }
  }

  // ---- shortening ----

  lemma {:induction false} DistinctAreFew(w: seq<nat>, n: nat)
    requires forall k :: 0 <= k < |w| ==> w[k] < n
    requires forall a, b :: 0 <= a < b < |w| ==> w[a] != w[b]
    ensures |w| <= n
  {
    hide Det, Mul, Inverse;
    assert |w| > 0 ==> w[0] < n;
    if n == 0 {
    } else if k: nat :| k < |w| && w[k] == n - 1 {
      var rest := w[..k] + w[k + 1..];
      forall a, b | 0 <= a < b < |rest| ensures rest[a] != rest[b] {
        assert rest[a] == w[if a < k then a else a + 1];
        assert rest[b] == w[if b < k then b else b + 1];
      }
      forall a | 0 <= a < |rest| ensures rest[a] < n - 1 {
        assert rest[a] == w[if a < k then a else a + 1];
      }
      DistinctAreFew(rest, n - 1);
    } else {
      DistinctAreFew(w, n - 1);
    }
  }

  lemma PartsOfWalk(t: Table, w: seq<nat>, m: nat)
    requires WellFormed(t) && IsWalk(t, w) && m < |w|
    ensures IsWalk(t, w[..m + 1]) && IsWalk(t, w[m..])
    ensures Cost(t, w) == Cost(t, w[..m + 1]) + Cost(t, w[m..])
  {
    hide Det, Mul, Inverse;
    JoinedWalks(t, w[..m + 1], w[m..]);
    assert Joined(w[..m + 1], w[m..]) == w;
  }

  /** A walk that leaves out the part from a to b, where it returns to the same sensor. */
  lemma WithoutLoop(t: Table, w: seq<nat>, a: nat, b: nat) returns (s: seq<nat>)
    requires WellFormed(t) && IsWalk(t, w) && a < b < |w| && w[a] == w[b]
    ensures WalkBetween(t, s, w[0], w[|w| - 1]) && |s| < |w| && Cost(t, s) <= Cost(t, w)
  {
    hide Det, Mul, Inverse, Mirrored, Cost, Composed;
    var head, loop, tail := w[..a + 1], w[a..][..b - a + 1], w[b..];
    PartsOfWalk(t, w, a);
    PartsOfWalk(t, w[a..], b - a);
    assert w[a..][b - a..] == tail;
    CostIsNonNegative(t, loop);
    JoinedWalks(t, head, tail);
    s := Joined(head, tail);
  }

  /** Any two sensors joined by a walk are joined by one that visits no sensor twice, at no greater cost. */
  lemma {:induction false} ShortWalk(t: Table, w: seq<nat>) returns (s: seq<nat>)
    requires WellFormed(t) && IsWalk(t, w)
    ensures WalkBetween(t, s, w[0], w[|w| - 1]) && |s| <= |t| && Cost(t, s) <= Cost(t, w)
    decreases |w|
  {
    hide Det, Mul, Inverse, Mirrored, Cost;
    if a, b :| 0 <= a < b < |w| && w[a] == w[b] {
      s := WithoutLoop(t, w, a, b);
      s := ShortWalk(t, s);
    } else {
      DistinctAreFew(w, |t|);
      s := w;
    }
  }

  // ---- what a table knows about the measurements ----

  ghost predicate Witnesses(t0: Table, w: seq<nat>, i: nat, j: nat, b: BasisChange)
    requires Square(t0)
  {
    WalkBetween(t0, w, i, j) && Cost(t0, w) == b.error && Composed(t0, w) == b.matrix
  }

  /** Every valid entry is the cost and the composition of a walk over the measurements. */
  ghost predicate Sound(t0: Table, t: Table)
    requires Square(t0) && Square(t)
  {
    |t| == |t0| &&
    forall i, j :: 0 <= i < |t| && 0 <= j < |t| && t[i][j].valid ==> exists w :: Witnesses(t0, w, i, j, t[i][j])
  }

  /** Every walk of at most `hops` hops is matched or beaten. */
  ghost predicate Covers(t0: Table, t: Table, hops: nat)
    requires Square(t0) && Square(t) && |t| == |t0|
  {
    forall w :: IsWalk(t0, w) && |w| <= hops + 1 ==>
      t[w[0]][w[|w| - 1]].valid && t[w[0]][w[|w| - 1]].error <= Cost(t0, w)
  }

  ghost predicate Improves(s: Table, t: Table)
    requires Square(s) && Square(t)
  {
    |s| == |t| &&
    forall i, j :: 0 <= i < |s| && 0 <= j < |s| && s[i][j].valid ==> t[i][j].valid && t[i][j].error <= s[i][j].error
  }

  /** In `t` going from i to j is no dearer than going through k was in `s`. */
  ghost predicate RelaxedAt(s: Table, t: Table, i: nat, j: nat, k: nat)
    requires Square(s) && Square(t) && |s| == |t| && i < |s| && j < |s| && k < |s|
  {
    s[i][k].valid && s[k][j].valid ==> t[i][j].valid && t[i][j].error <= s[i][k].error + s[k][j].error
  }

  ghost predicate Relaxed(s: Table, t: Table)
    requires Square(s) && Square(t) && |s| == |t|
  {
    forall i, j, k :: 0 <= i < |s| && 0 <= j < |s| && 0 <= k < |s| ==> RelaxedAt(s, t, i, j, k)
  }

  lemma MeasurementsCoverOneHop(t: Table)
    requires WellFormed(t)
    ensures Sound(t, t) && Covers(t, t, 1)
  {
    hide Det, Mul, Inverse;
    forall i, j | 0 <= i < |t| && 0 <= j < |t| && t[i][j].valid
      ensures exists w :: Witnesses(t, w, i, j, t[i][j])
    {
      var w: seq<nat> := [i, j];
      assert IsWalk(t, w) && w[1..] == [j];
      assert Cost(t, [j]) == 0.0 && Composed(t, [j]) == IDENTITY;
      IdentityIsNeutral(t[i][j].matrix);
      assert Witnesses(t, w, i, j, t[i][j]);
    }
    forall w | IsWalk(t, w) && |w| <= 2
      ensures t[w[0]][w[|w| - 1]].valid && t[w[0]][w[|w| - 1]].error <= Cost(t, w)
    {
      if |w| == 2 {
        assert w[1..] == [w[1]];
        assert Cost(t, w[1..]) == 0.0;
      }
    }
  }

  /** Path doubling: relaxing a table that covers `hops` hops gives one that covers twice as many. */
  lemma Doubling(t0: Table, s: Table, t: Table, hops: nat)
    requires WellFormed(t0) && Square(s) && Square(t) && |s| == |t0| == |t| && hops >= 1
    requires Covers(t0, s, hops) && Relaxed(s, t)
    ensures Covers(t0, t, 2 * hops)
  {
    hide Det, Mul, Inverse, Mirrored, Cost;
    forall w | IsWalk(t0, w) && |w| <= 2 * hops + 1
      ensures t[w[0]][w[|w| - 1]].valid && t[w[0]][w[|w| - 1]].error <= Cost(t0, w)
    {
      var m := if |w| - 1 <= hops then |w| - 1 else hops;
      PartsOfWalk(t0, w, m);
      assert RelaxedAt(s, t, w[0], w[|w| - 1], w[m]);
    }
  }

  ghost predicate Connected(t0: Table, i: nat, j: nat)
    requires Square(t0)
  {
    exists w :: WalkBetween(t0, w, i, j)
  }

  /** A table that is sound and covers every loop-free walk holds exactly the cheapest walks. */
  lemma CheapestWalks(t0: Table, t: Table, hops: nat)
    requires WellFormed(t0) && Square(t) && Sound(t0, t) && Covers(t0, t, hops) && |t0| <= hops + 1
    ensures |t| == |t0|
    ensures forall i, j :: 0 <= i < |t| && 0 <= j < |t| ==>
      (t[i][j].valid <==> Connected(t0, i, j))
    ensures forall w :: IsWalk(t0, w) ==> t[w[0]][w[|w| - 1]].valid && t[w[0]][w[|w| - 1]].error <= Cost(t0, w)
  {
    hide Det, Mul, Inverse;
    forall w | IsWalk(t0, w)
      ensures t[w[0]][w[|w| - 1]].valid && t[w[0]][w[|w| - 1]].error <= Cost(t0, w)
    {
      var s := ShortWalk(t0, w);
    }
    forall i: nat, j: nat | i < |t| && j < |t|
      ensures t[i][j].valid <==> Connected(t0, i, j)
    {
      if t[i][j].valid {
        var w :| Witnesses(t0, w, i, j, t[i][j]);
        assert WalkBetween(t0, w, i, j);
      }
    }
  }

  // ---- true poses ----

  /** Each valid matrix agrees with the given placement of the sensors. */
  ghost predicate Agrees(t: Table, pose: seq<Matrix3H>)
    requires Square(t)
  {
    |pose| == |t| &&
    forall i, j :: 0 <= i < |t| && 0 <= j < |t| && t[i][j].valid ==> Mul(pose[j], t[i][j].matrix) == pose[i]
  }

  lemma {:induction false} WalksAgree(t: Table, pose: seq<Matrix3H>, w: seq<nat>)
    requires Square(t) && Agrees(t, pose) && IsWalk(t, w)
    ensures Mul(pose[w[|w| - 1]], Composed(t, w)) == pose[w[0]]
  {
    hide Det, Mul, Inverse;
    if |w| == 1 {
      IdentityIsNeutral(pose[w[0]]);
    } else {
      WalksAgree(t, pose, w[1..]);
      MulAssociative(pose[w[|w| - 1]], Composed(t, w[1..]), t[w[0]][w[1]].matrix);
    }
  }

  /** If the measurements agree with the true poses, so does everything derived from them. */
  lemma DerivedAgree(t0: Table, t: Table, pose: seq<Matrix3H>)
    requires Square(t0) && Square(t) && Sound(t0, t) && Agrees(t0, pose)
    ensures Agrees(t, pose)
  {
    hide Det, Mul, Inverse;
    forall i, j | 0 <= i < |t| && 0 <= j < |t| && t[i][j].valid
      ensures Mul(pose[j], t[i][j].matrix) == pose[i]
    {
      var w :| Witnesses(t0, w, i, j, t[i][j]);
      WalksAgree(t0, pose, w);
    }
  }
}
