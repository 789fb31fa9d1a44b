/** Merging the trackables of several sensor stages into one layer: stage by stage, the closest pairs are
    mixed and what finds no partner is added.  */
module StageMerge {
  import opened Candidates
  import opened Matching

  datatype Body = Body(x: real, y: real, size: real)

  datatype Axis = AlongX | AlongY | InSize

  function At(b: Body, a: Axis): real {
    match a
    case AlongX => b.x
    case AlongY => b.y
    case InSize => b.size
  }

  /** Where a contribution comes from. */
  datatype Source = Source(stage: nat, index: nat)

  /** A trackable of the merged layer, with a record of what went into it. */
  datatype Merged = Merged(body: Body, numWeight: nat, sources: seq<Source>)

  type Stages = seq<seq<Body>>

  function MixWith(b: Body, other: Body, weight: real): Body {
    Body(weight * b.x + (1.0 - weight) * other.x, weight * b.y + (1.0 - weight) * other.y,
         weight * b.size + (1.0 - weight) * other.size)
  }

  /** A contribution mixed in with the reciprocal of the new weight. */
  function Absorb(t: Merged, other: Body, from: Source): Merged {
    Merged(MixWith(t.body, other, 1.0 / (t.numWeight + 1) as real), t.numWeight + 1, t.sources + [from])
  }

  function Founded(b: Body, from: Source): Merged {
    Merged(b, 1, [from])
  }

  // ---- one stage ----

  /** The layer after the matched pairs have been mixed. */
  function Absorbed(layer: seq<Merged>, stages: Stages, s: nat, mm: seq<int>): (r: seq<Merged>)
    requires s < |stages| && |mm| == |layer|
    requires forall j :: 0 <= j < |mm| ==> mm[j] < |stages[s]|
    ensures |r| == |layer|
  {
    seq(|layer|, j requires 0 <= j < |layer| =>
      if mm[j] >= 0 then Absorb(layer[j], stages[s][mm[j]], Source(s, mm[j])) else layer[j])
  }

  /** The unmatched trackables of the stage from the i-th down. */
  function Newcomers(stages: Stages, s: nat, cm: seq<int>, i: nat): seq<Merged>
    requires s < |stages| && |cm| == |stages[s]| && i <= |cm|
  {
    if i == 0 then []
    else (if cm[i - 1] < 0 then [Founded(stages[s][i - 1], Source(s, i - 1))] else []) + Newcomers(stages, s, cm, i - 1)
  }

  // ---- conservation ----

  ghost function Weight(layer: seq<Merged>): nat {
    if layer == [] then 0 else Weight(layer[..|layer| - 1]) + layer[|layer| - 1].numWeight
  }

  lemma {:induction false} WeightConcat(a: seq<Merged>, b: seq<Merged>)
    ensures Weight(a + b) == Weight(a) + Weight(b)
  {
    if b == [] {
      assert a + b == a;
    } else {
      assert (a + b)[..|a + b| - 1] == a + b[..|b| - 1];
      WeightConcat(a, b[..|b| - 1]);
    }
  }

  ghost function Times(from: Source, sources: seq<Source>): nat {
    if sources == [] then 0 else Times(from, sources[..|sources| - 1]) + if sources[|sources| - 1] == from then 1 else 0
  }

  /** How often a contribution occurs in a layer. */
  ghost function Uses(layer: seq<Merged>, from: Source): nat {
    if layer == [] then 0 else Uses(layer[..|layer| - 1], from) + Times(from, layer[|layer| - 1].sources)
  }

  lemma {:induction false} UsesConcat(a: seq<Merged>, b: seq<Merged>, from: Source)
    ensures Uses(a + b, from) == Uses(a, from) + Uses(b, from)
  {
    if b == [] {
      assert a + b == a;
    } else {
      assert (a + b)[..|a + b| - 1] == a + b[..|b| - 1];
      UsesConcat(a, b[..|b| - 1], from);
    }
  }

  ghost function NumMatched(m: seq<int>, i: nat): nat
    requires i <= |m|
  {
    if i == 0 then 0 else NumMatched(m, i - 1) + if m[i - 1] >= 0 then 1 else 0
  }

  lemma {:induction false} AbsorbedWeight(layer: seq<Merged>, stages: Stages, s: nat, mm: seq<int>)
    requires s < |stages| && |mm| == |layer|
    requires forall j :: 0 <= j < |mm| ==> mm[j] < |stages[s]|
    ensures Weight(Absorbed(layer, stages, s, mm)) == Weight(layer) + NumMatched(mm, |mm|)
  {
    if layer != [] {
      var n := |layer| - 1;
      AbsorbedWeight(layer[..n], stages, s, mm[..n]);
      assert Absorbed(layer, stages, s, mm)[..n] == Absorbed(layer[..n], stages, s, mm[..n]);
      NumMatchedPrefix(mm, n, n);
    }
  }

  lemma {:induction false} NumMatchedPrefix(m: seq<int>, n: nat, i: nat)
    requires i <= n <= |m|
    ensures NumMatched(m[..n], i) == NumMatched(m, i)
  {
    if i > 0 {
      NumMatchedPrefix(m, n, i - 1);
    }
  }

  lemma {:induction false} NewcomersWeight(stages: Stages, s: nat, cm: seq<int>, i: nat)
    requires s < |stages| && |cm| == |stages[s]| && i <= |cm|
    ensures Weight(Newcomers(stages, s, cm, i)) + NumMatched(cm, i) == i
  {
    if i > 0 {
      NewcomersWeight(stages, s, cm, i - 1);
      var head := if cm[i - 1] < 0 then [Founded(stages[s][i - 1], Source(s, i - 1))] else [];
      WeightConcat(head, Newcomers(stages, s, cm, i - 1));
      if cm[i - 1] < 0 {
        assert head[..0] == [];
        assert Weight(head) == Weight([]) + 1;
      }
    }
  }

  /** As many on one side as on the other: the matching is one to one. */
  lemma {:induction false} MatchedSidesAgree(cm: seq<int>, mm: seq<int>, i: nat)
    requires Inverse(cm, mm) && i <= |cm|
    requires forall j :: 0 <= j < |mm| && mm[j] >= 0 ==> mm[j] < i
    requires forall k :: i <= k < |cm| ==> cm[k] < 0
    ensures NumMatched(cm, i) == NumMatched(mm, |mm|)
    decreases i
  {
    if i == 0 {
      NothingMatched(mm, |mm|);
    } else if cm[i - 1] < 0 {
      MatchedSidesAgree(cm, mm, i - 1);
    } else {
      var j := cm[i - 1];
      var cm', mm' := cm[i - 1 := -1], mm[j := -1];
      MatchedSidesAgree(cm', mm', i - 1);
      NumMatchedPrefix(cm, i - 1, i - 1);
      NumMatchedPrefix(cm', i - 1, i - 1);
      assert cm[..i - 1] == cm'[..i - 1];
      OneLess(mm, j, |mm|);
    }
  }

  lemma {:induction false} NothingMatched(m: seq<int>, i: nat)
    requires i <= |m| && forall k :: 0 <= k < |m| ==> m[k] < 0
    ensures NumMatched(m, i) == 0
  {
    if i > 0 {
      NothingMatched(m, i - 1);
    }
  }

  lemma {:induction false} OneLess(m: seq<int>, j: nat, i: nat)
    requires j < |m| && i <= |m| && m[j] >= 0
    ensures NumMatched(m, i) == NumMatched(m[j := -1], i) + if j < i then 1 else 0
  {
    if i > 0 {
      OneLess(m, j, i - 1);
    }
  }

  // ---- every contribution exactly once ----

  lemma {:induction false} AbsorbedUses(layer: seq<Merged>, stages: Stages, s: nat, mm: seq<int>, from: Source)
    requires s < |stages| && |mm| == |layer|
    requires forall j :: 0 <= j < |mm| ==> mm[j] < |stages[s]|
    ensures Uses(Absorbed(layer, stages, s, mm), from) ==
      Uses(layer, from) + if from.stage == s then Count(mm, from.index) else 0
  {
    if layer != [] {
      var n := |layer| - 1;
      AbsorbedUses(layer[..n], stages, s, mm[..n], from);
      assert Absorbed(layer, stages, s, mm)[..n] == Absorbed(layer[..n], stages, s, mm[..n]);
      if mm[n] >= 0 {
        var more := layer[n].sources + [Source(s, mm[n])];
        assert more[..|more| - 1] == layer[n].sources;
      }
    }
  }

  ghost function Count(m: seq<int>, i: nat): nat {
    if m == [] then 0 else Count(m[..|m| - 1], i) + if m[|m| - 1] == i then 1 else 0
  }

  lemma {:induction false} CountIsOne(m: seq<int>, i: nat)
    requires forall a, b :: 0 <= a < b < |m| && m[a] >= 0 ==> m[a] != m[b]
    ensures Count(m, i) == if exists a :: 0 <= a < |m| && m[a] == i then 1 else 0
  {
    if m != [] {
      CountIsOne(m[..|m| - 1], i);
      if a :| 0 <= a < |m| - 1 && m[a] == i {
        assert m[..|m| - 1][a] == i;
      }
    }
  }

  lemma FoundedUses(b: Body, f: Source, from: Source)
    ensures Uses([Founded(b, f)], from) == if f == from then 1 else 0
  {
    assert [Founded(b, f)][..0] == [] && [f][..0] == [];
    assert Times(from, [f]) == Times(from, []) + if f == from then 1 else 0;
  }

  lemma {:induction false} NewcomersUses(stages: Stages, s: nat, cm: seq<int>, i: nat, from: Source)
    requires s < |stages| && |cm| == |stages[s]| && i <= |cm|
    ensures Uses(Newcomers(stages, s, cm, i), from) ==
      if from.stage == s && from.index < i && cm[from.index] < 0 then 1 else 0
  {
    hide Uses, Newcomers, Founded;
    NewcomersAt(stages, s, cm, i);
    if i == 0 {
      NothingUses(from);
    } else {
      NewcomersUses(stages, s, cm, i - 1, from);
      if cm[i - 1] < 0 {
        UsesConcat([Founded(stages[s][i - 1], Source(s, i - 1))], Newcomers(stages, s, cm, i - 1), from);
        FoundedUses(stages[s][i - 1], Source(s, i - 1), from);
      }
    }
  }

  lemma NothingUses(from: Source)
    ensures Uses([], from) == 0
  {
  }

  lemma NewcomersAt(stages: Stages, s: nat, cm: seq<int>, i: nat)
    requires s < |stages| && |cm| == |stages[s]| && i <= |cm|
    ensures Newcomers(stages, s, cm, 0) == []
    ensures i > 0 && cm[i - 1] < 0 ==>
      Newcomers(stages, s, cm, i) == [Founded(stages[s][i - 1], Source(s, i - 1))] + Newcomers(stages, s, cm, i - 1)
    ensures i > 0 && cm[i - 1] >= 0 ==> Newcomers(stages, s, cm, i) == Newcomers(stages, s, cm, i - 1)
  {
  }

  // ---- the hull of the contributions ----

  ghost predicate Known(stages: Stages, from: Source) {
    from.stage < |stages| && from.index < |stages[from.stage]|
  }

  ghost function Value(stages: Stages, from: Source, a: Axis): real
    requires Known(stages, from)
  {
    At(stages[from.stage][from.index], a)
  }

  ghost function Lowest(stages: Stages, sources: seq<Source>, a: Axis): (lo: real)
    requires sources != [] && forall k :: 0 <= k < |sources| ==> Known(stages, sources[k])
    ensures exists k :: 0 <= k < |sources| && lo == Value(stages, sources[k], a)
    ensures forall k :: 0 <= k < |sources| ==> lo <= Value(stages, sources[k], a)
  {
    var n := |sources| - 1;
    if n == 0 then Value(stages, sources[0], a)
    else
      var rest := Lowest(stages, sources[..n], a);
      var k :| 0 <= k < n && rest == Value(stages, sources[..n][k], a);
      assert sources[k] == sources[..n][k];
      if rest < Value(stages, sources[n], a) then rest else Value(stages, sources[n], a)
  }

  ghost function Highest(stages: Stages, sources: seq<Source>, a: Axis): (hi: real)
    requires sources != [] && forall k :: 0 <= k < |sources| ==> Known(stages, sources[k])
    ensures exists k :: 0 <= k < |sources| && hi == Value(stages, sources[k], a)
    ensures forall k :: 0 <= k < |sources| ==> hi >= Value(stages, sources[k], a)
  {
    var n := |sources| - 1;
    if n == 0 then Value(stages, sources[0], a)
    else
      var rest := Highest(stages, sources[..n], a);
      var k :| 0 <= k < n && rest == Value(stages, sources[..n][k], a);
      assert sources[k] == sources[..n][k];
      if rest > Value(stages, sources[n], a) then rest else Value(stages, sources[n], a)
  }

  /** What a trackable of the layer owes its contributions. */
  ghost predicate EntryOk(stages: Stages, t: Merged, from: nat) {
    && t.sources != [] && t.numWeight == |t.sources|
    && (forall k :: 0 <= k < |t.sources| ==> Known(stages, t.sources[k]) && from <= t.sources[k].stage)
    && (forall k, l :: 0 <= k < l < |t.sources| ==> t.sources[k].stage > t.sources[l].stage)
    && (forall a: Axis :: Lowest(stages, t.sources, a) <= At(t.body, a) <= Highest(stages, t.sources, a))
    && (forall a: Axis :: IsWeighted(stages, t.sources, At(t.body, a), a))
  }

  // ---- where a mixed trackable is ----

  function Product(a: real, b: real): real {
    a * b
  }

  function Factorial(n: nat): nat {
    if n == 0 then 1 else n * Factorial(n - 1)
  }

  /** How much the k-th contribution weighs: the first one 1, each other (k - 1) * (k - 1)!. */
  function Share(k: nat): nat {
    if k <= 1 then 1 else (k - 1) * Factorial(k - 1)
  }

  ghost function ShareSum(n: nat): nat {
    if n == 0 then 0 else ShareSum(n - 1) + Share(n)
  }

  /** The shares of n contributions add up to n!. */
  lemma {:induction false} SharesAddUp(n: nat)
    requires n > 0
    ensures ShareSum(n) == Factorial(n)
  {
    if n == 1 {
      assert ShareSum(1) == ShareSum(0) + Share(1);
      assert Factorial(1) == 1 * Factorial(0);
    } else {
      SharesAddUp(n - 1);
      assert Factorial(n) == n * Factorial(n - 1);
    }
  }

  ghost function WeightedSum(stages: Stages, sources: seq<Source>, a: Axis): real
    requires forall k :: 0 <= k < |sources| ==> Known(stages, sources[k])
  {
    if sources == [] then 0.0
    else
      var n := |sources|;
      WeightedSum(stages, sources[..n - 1], a) + Product(Share(n) as real, Value(stages, sources[n - 1], a))
  }

  /** A coordinate is the average of the contributions by their shares: the later one came, the more it weighs. */
  ghost predicate IsWeighted(stages: Stages, sources: seq<Source>, v: real, a: Axis)
    requires forall k :: 0 <= k < |sources| ==> Known(stages, sources[k])
  {
    Product(Factorial(|sources|) as real, v) == WeightedSum(stages, sources, a)
  }

  /** Mixing puts a trackable between where it was and what is mixed in: after the k-th contribution it is a k-th of the
      way from that to where it was before. */
  lemma MixedIsAt(t: Merged, other: Body, from: Source, a: Axis)
    ensures var u := Absorb(t, other, from);
      && u.numWeight == t.numWeight + 1
      && Product(u.numWeight as real, At(u.body, a) - At(other, a)) == At(t.body, a) - At(other, a)
  {
    MixOfTwo(1.0 / (t.numWeight + 1) as real, (t.numWeight + 1) as real, At(t.body, a), At(other, a));
  }

  lemma MixOfTwo(w: real, n: real, p: real, q: real)
    requires n > 0.0 && w == 1.0 / n
    ensures Product(n, w * p + (1.0 - w) * q - q) == p - q
  {
    assert w * n == 1.0;
    assert w * p + (1.0 - w) * q - q == w * (p - q);
    assert n * (w * (p - q)) == (w * n) * (p - q);
  }

  lemma NextWeighted(n: nat, f: real, u: real, v: real, b: real, sum: real)
    requires n >= 1 && Product(f, v) == sum && Product((n + 1) as real, u - b) == v - b
    ensures Product(Product((n + 1) as real, f), u) == sum + Product(Product(n as real, f), b)
  {
    var k := (n + 1) as real;
    assert k * (u - b) == k * u - k * b;
    assert k * u == v - b + k * b;
    assert (k * f) * u == f * (k * u);
    assert f * (v - b + k * b) == f * v + f * ((k - 1.0) * b);
    assert f * ((k - 1.0) * b) == ((k - 1.0) * f) * b;
  }

  lemma SumNext(stages: Stages, sources: seq<Source>, from: Source, a: Axis)
    requires (forall k :: 0 <= k < |sources| ==> Known(stages, sources[k])) && Known(stages, from)
    ensures var more := sources + [from];
      && (forall k :: 0 <= k < |more| ==> Known(stages, more[k]))
      && WeightedSum(stages, more, a) ==
           WeightedSum(stages, sources, a) + Product(Share(|more|) as real, Value(stages, from, a))
  {
    hide Product, Share, Value;
    var more := sources + [from];
    assert more[..|more| - 1] == sources;
  }

  lemma EntryIsWeighted(stages: Stages, t: Merged, from: nat, a: Axis)
    requires EntryOk(stages, t, from)
    ensures t.numWeight == |t.sources| >= 1 && (forall k :: 0 <= k < |t.sources| ==> Known(stages, t.sources[k]))
    ensures IsWeighted(stages, t.sources, At(t.body, a), a)
  {
    hide Lowest, Highest, IsWeighted;
  }

  lemma AbsorbIsWeighted(stages: Stages, t: Merged, s: nat, i: nat, a: Axis)
    requires EntryOk(stages, t, s + 1) && s < |stages| && i < |stages[s]|
    ensures var u := Absorb(t, stages[s][i], Source(s, i));
      && (forall k :: 0 <= k < |u.sources| ==> Known(stages, u.sources[k]))
      && IsWeighted(stages, u.sources, At(u.body, a), a)
  {
    hide EntryOk, MixWith, Product, WeightedSum, Factorial, Share;
    var other, from, n := stages[s][i], Source(s, i), t.numWeight;
    var u := Absorb(t, other, from);
    EntryIsWeighted(stages, t, s + 1, a);
    MixedIsAt(t, other, from, a);
    var sum := WeightedSum(stages, t.sources, a);
    NextWeighted(n, Factorial(n) as real, At(u.body, a), At(t.body, a), At(other, a), sum);
    FactorialNext(n);
    SumNext(stages, t.sources, from, a);
  }

  lemma FactorialNext(n: nat)
    requires n >= 1
    ensures Factorial(n + 1) as real == Product((n + 1) as real, Factorial(n) as real)
    ensures Share(n + 1) as real == Product(n as real, Factorial(n) as real)
  {
  }

  /** With three contributions: a sixth of the first, a sixth of the second, two thirds of the third. */
  lemma ThreeContributions(stages: Stages, t: Merged, from: nat, a: Axis)
    requires EntryOk(stages, t, from) && |t.sources| == 3
    ensures var b := k requires 0 <= k < 3 => Value(stages, t.sources[k], a);
      At(t.body, a) == b(0) / 6.0 + b(1) / 6.0 + 2.0 * b(2) / 3.0
  {
    hide EntryOk, WeightedSum, Product;
    var q := t.sources;
    EntryIsWeighted(stages, t, from, a);
    SumNext(stages, [], q[0], a);
    SumNext(stages, [q[0]], q[1], a);
    SumNext(stages, [q[0], q[1]], q[2], a);
    assert [] + [q[0]] == [q[0]] && [q[0]] + [q[1]] == [q[0], q[1]] && [q[0], q[1]] + [q[2]] == q;
    SmallShares();
    NothingWeighs(stages, a);
    Sixth(At(t.body, a), Value(stages, q[0], a), Value(stages, q[1], a), Value(stages, q[2], a));
  }

  lemma NothingWeighs(stages: Stages, a: Axis)
    ensures WeightedSum(stages, [], a) == 0.0
  {
  }

  lemma SmallShares()
    ensures Factorial(3) == 6 && Share(1) == 1 && Share(2) == 1 && Share(3) == 4
  {
    assert Factorial(1) == 1 && Factorial(2) == 2;
  }

  lemma Sixth(v: real, b: real, c: real, d: real)
    requires Product(6.0, v) == Product(1.0, b) + Product(1.0, c) + Product(4.0, d)
    ensures v == b / 6.0 + c / 6.0 + 2.0 * d / 3.0
  {
  }

  lemma Scaled(w: real, a: real, b: real)
    requires 0.0 <= w && a <= b
    ensures Product(w, a) <= Product(w, b)
  {
  }

  lemma WholeIsSum(w: real, v: real, c: real)
    requires w + v == 1.0
    ensures Product(w, c) + Product(v, c) == c
  {
    assert (w + v) * c == w * c + v * c;
  }

  lemma Convex(w: real, v: real, p: real, q: real, lo: real, hi: real)
    requires 0.0 <= w && 0.0 <= v && w + v == 1.0 && lo <= p <= hi && lo <= q <= hi
    ensures lo <= Product(w, p) + Product(v, q) <= hi
  {
    hide Product;
    Scaled(w, lo, p);
    Scaled(w, p, hi);
    Scaled(v, lo, q);
    Scaled(v, q, hi);
    WholeIsSum(w, v, lo);
    WholeIsSum(w, v, hi);
  }

  lemma Reciprocal(n: nat)
    requires n >= 1
    ensures 0.0 <= 1.0 / n as real <= 1.0
  {
  }

  lemma AbsorbStaysInHull(stages: Stages, t: Merged, s: nat, i: nat, a: Axis)
    requires EntryOk(stages, t, s + 1) && s < |stages| && i < |stages[s]|
    ensures var u := Absorb(t, stages[s][i], Source(s, i));
      && (forall k :: 0 <= k < |u.sources| ==> Known(stages, u.sources[k]))
      && Lowest(stages, u.sources, a) <= At(u.body, a) <= Highest(stages, u.sources, a)
  {
    hide Lowest, Highest, MixWith;
    var from, other := Source(s, i), stages[s][i];
    var u := Absorb(t, other, from);
    forall k | 0 <= k < |u.sources| ensures Known(stages, u.sources[k]) {
      assert k < |t.sources| ==> u.sources[k] == t.sources[k];
    }
    var lo, hi := Lowest(stages, u.sources, a), Highest(stages, u.sources, a);
    assert forall k :: 0 <= k < |t.sources| ==> u.sources[k] == t.sources[k];
    assert u.sources[|t.sources|] == from;
    MixStaysBetween(t, other, from, a, lo, hi);
  }

  lemma MixStaysBetween(t: Merged, other: Body, from: Source, a: Axis, lo: real, hi: real)
    requires lo <= At(t.body, a) <= hi && lo <= At(other, a) <= hi
    ensures lo <= At(Absorb(t, other, from).body, a) <= hi
  {
    Reciprocal(t.numWeight + 1);
    var w := 1.0 / (t.numWeight + 1) as real;
    Convex(w, 1.0 - w, At(t.body, a), At(other, a), lo, hi);
  }

  lemma AbsorbKeepsEntry(stages: Stages, t: Merged, s: nat, i: nat)
    requires EntryOk(stages, t, s + 1) && s < |stages| && i < |stages[s]|
    ensures EntryOk(stages, Absorb(t, stages[s][i], Source(s, i)), s)
  {
    hide Lowest, Highest, MixWith;
    forall a: Axis
      ensures var u := Absorb(t, stages[s][i], Source(s, i));
        && (forall k :: 0 <= k < |u.sources| ==> Known(stages, u.sources[k]))
        && Lowest(stages, u.sources, a) <= At(u.body, a) <= Highest(stages, u.sources, a)
    {
      AbsorbStaysInHull(stages, t, s, i, a);
    }
    forall a: Axis
      ensures var u := Absorb(t, stages[s][i], Source(s, i));
        && (forall k :: 0 <= k < |u.sources| ==> Known(stages, u.sources[k]))
        && IsWeighted(stages, u.sources, At(u.body, a), a)
    {
      AbsorbIsWeighted(stages, t, s, i, a);
    }
  }

  /** A trackable never takes two contributions from one stage, so its weight is at most the number of stages. */
  lemma WeightIsAtMostStages(stages: Stages, t: Merged, from: nat)
    requires from <= |stages| && EntryOk(stages, t, from)
    ensures 1 <= t.numWeight <= |stages| - from
  {
    SourcesDescend(stages, t, from, |t.sources| - 1);
  }

  lemma {:induction false} SourcesDescend(stages: Stages, t: Merged, from: nat, k: nat)
    requires EntryOk(stages, t, from) && k < |t.sources|
    ensures from <= t.sources[k].stage && t.sources[k].stage + k < |stages|
  {
    if k > 0 {
      SourcesDescend(stages, t, from, k - 1);
    }
  }

  // ---- the layer after the stages from `from` on ----

  ghost function Size(stages: Stages, from: nat): nat
    requires from <= |stages|
    decreases |stages| - from
  {
    if from == |stages| then 0 else Size(stages, from + 1) + |stages[from]|
  }

  ghost predicate LayerOk(stages: Stages, layer: seq<Merged>, from: nat)
    requires from <= |stages|
  {
    && (forall j :: 0 <= j < |layer| ==> EntryOk(stages, layer[j], from))
    && Weight(layer) == Size(stages, from)
    && (forall f: Source :: Uses(layer, f) == if Known(stages, f) && f.stage >= from then 1 else 0)
  }

  /** Merging a stage in keeps all of it: weights, contributions once each, and hulls. */
  lemma StageKeepsLayer(stages: Stages, layer: seq<Merged>, s: nat, cm: seq<int>, mm: seq<int>)
    requires s < |stages| && LayerOk(stages, layer, s + 1)
    requires |cm| == |stages[s]| && |mm| == |layer| && Inverse(cm, mm)
    ensures LayerOk(stages, Absorbed(layer, stages, s, mm) + Newcomers(stages, s, cm, |cm|), s)
  {
    hide Weight, Uses, EntryOk, Absorb;
    var a, b := Absorbed(layer, stages, s, mm), Newcomers(stages, s, cm, |cm|);
    WeightConcat(a, b);
    AbsorbedWeight(layer, stages, s, mm);
    NewcomersWeight(stages, s, cm, |cm|);
    MatchedSidesAgree(cm, mm, |cm|);
    forall f: Source ensures Uses(a + b, f) == if Known(stages, f) && f.stage >= s then 1 else 0 {
      UsesConcat(a, b, f);
      AbsorbedUses(layer, stages, s, mm, f);
      NewcomersUses(stages, s, cm, |cm|, f);
      CountIsOne(mm, f.index);
    }
    AbsorbedAreOk(stages, layer, s, mm);
    NewcomersAreOk(stages, s, cm, |cm|);
  }

  lemma AbsorbedAreOk(stages: Stages, layer: seq<Merged>, s: nat, mm: seq<int>)
    requires s < |stages| && |mm| == |layer|
    requires forall j :: 0 <= j < |mm| ==> mm[j] < |stages[s]|
    requires forall j :: 0 <= j < |layer| ==> EntryOk(stages, layer[j], s + 1)
    ensures forall j :: 0 <= j < |layer| ==> EntryOk(stages, Absorbed(layer, stages, s, mm)[j], s)
  {
    hide EntryOk, Absorb;
    forall j | 0 <= j < |layer| ensures EntryOk(stages, Absorbed(layer, stages, s, mm)[j], s) {
      if mm[j] >= 0 {
        AbsorbKeepsEntry(stages, layer[j], s, mm[j]);
      } else {
        EntryStaysOk(stages, layer[j], s);
      }
    }
  }

  lemma EntryStaysOk(stages: Stages, t: Merged, s: nat)
    requires EntryOk(stages, t, s + 1)
    ensures EntryOk(stages, t, s)
  {
  }

  lemma {:induction false} NewcomersAreOk(stages: Stages, s: nat, cm: seq<int>, i: nat)
    requires s < |stages| && |cm| == |stages[s]| && i <= |cm|
    ensures forall j :: 0 <= j < |Newcomers(stages, s, cm, i)| ==> EntryOk(stages, Newcomers(stages, s, cm, i)[j], s)
  {
    hide EntryOk;
    if i > 0 {
      NewcomersAreOk(stages, s, cm, i - 1);
      FoundedIsOk(stages, s, i - 1);
    }
  }

  lemma FoundedIsOk(stages: Stages, s: nat, i: nat)
    requires s < |stages| && i < |stages[s]|
    ensures EntryOk(stages, Founded(stages[s][i], Source(s, i)), s)
  {
    var t := Founded(stages[s][i], Source(s, i));
    forall a: Axis ensures IsWeighted(stages, t.sources, At(t.body, a), a) {
      OneContribution(stages, Source(s, i), a);
    }
  }

  lemma OneContribution(stages: Stages, from: Source, a: Axis)
    requires Known(stages, from)
    ensures IsWeighted(stages, [from], Value(stages, from, a), a)
  {
    assert [from][..0] == [];
    assert WeightedSum(stages, [from], a) == WeightedSum(stages, [], a) + Product(1.0, Value(stages, from, a));
    assert Factorial(1) == 1 * Factorial(0);
  }

  // ---- the program ----

  /** Distances between the trackables of a stage and those of the layer. */
  function DistanceTo(subStage: seq<Body>, layer: seq<Merged>, distance: (Body, Body) -> real): (nat, nat) -> real {
    (i: nat, j: nat) => if i < |subStage| && j < |layer| then distance(subStage[i], layer[j].body) else 0.0
  }

  /** A trackable of the stage and one of the layer that were mixed are within the distance of each other, and two that
      found no partner are not. */
  lemma PartnersAreNear(subStage: seq<Body>, layer: seq<Merged>, cm: seq<int>, mm: seq<int>,
                        distance: (Body, Body) -> real, limit: real)
    requires |cm| == |subStage| && |mm| == |layer|
    requires GreedyMatching(cm, mm, DistanceTo(subStage, layer, distance), limit, false)
    ensures forall j :: 0 <= j < |mm| && mm[j] >= 0 ==>
      mm[j] < |subStage| && distance(subStage[mm[j]], layer[j].body) <= limit
    ensures forall i, j :: 0 <= i < |cm| && 0 <= j < |mm| && cm[i] < 0 && mm[j] < 0 ==>
      distance(subStage[i], layer[j].body) > limit
  {
    var apart := DistanceTo(subStage, layer, distance);
    MatchedWithinLimit(cm, mm, apart, limit, false);
    forall i: nat, j: nat | i < |cm| && j < |mm| && cm[i] < 0 && mm[j] < 0
      ensures distance(subStage[i], layer[j].body) > limit
    {
      assert apart(i, j) == distance(subStage[i], layer[j].body);
    }
    forall j: nat | j < |mm| && mm[j] >= 0
      ensures mm[j] < |subStage| && distance(subStage[mm[j]], layer[j].body) <= limit
    {
      assert apart(mm[j], j) <= limit;
    }
  }

  lemma AbsorbOne(layer: seq<Merged>, stages: Stages, s: nat, mm: seq<int>, j: nat, i: nat)
    requires s < |stages| && |mm| == |layer| && j < |mm| && mm[j] < 0 && i < |stages[s]|
    requires forall k :: 0 <= k < |mm| ==> mm[k] < |stages[s]|
    ensures Absorbed(layer, stages, s, mm)[j := Absorb(Absorbed(layer, stages, s, mm)[j], stages[s][i], Source(s, i))]
      == Absorbed(layer, stages, s, mm[j := i])
  {
  }

  lemma NewcomersSteps(stages: Stages, s: nat, cm: seq<int>, i: nat, front: seq<Merged>)
    requires s < |stages| && |cm| == |stages[s]| && i < |cm|
    ensures front + Newcomers(stages, s, cm, i + 1) ==
      (if cm[i] < 0 then front + [Founded(stages[s][i], Source(s, i))] else front) + Newcomers(stages, s, cm, i)
  {
    var rest := Newcomers(stages, s, cm, i);
    var newcomer := Founded(stages[s][i], Source(s, i));
    assert front + ([newcomer] + rest) == front + [newcomer] + rest;
    assert [] + rest == rest;
  }

  /** The layer under construction. */
  class Layer {
    var merged: seq<Merged>

    constructor ()
      ensures merged == []
    {
      merged := [];
    }

    /** The sorted candidates in turn: a pair of two unused trackables is mixed. */
    method AbsorbMatched(stages: Stages, s: nat, infos: seq<TrackInfo>, ghost distance: (nat, nat) -> real,
                         uniteDistance: real)
      returns (subStageUsed: array<bool>, ghost cm: seq<int>, ghost mm: seq<int>)
      requires s < |stages| && ByDistance(infos)
      requires AreCrossPairs(infos, |stages[s]|, |merged|, distance, uniteDistance)
      modifies this
      ensures fresh(subStageUsed) && subStageUsed.Length == |cm| == |stages[s]| && |mm| == |old(merged)|
      ensures forall i :: 0 <= i < |cm| ==> (subStageUsed[i] <==> cm[i] >= 0)
      ensures GreedyMatching(cm, mm, distance, uniteDistance, false)
      ensures (forall j :: 0 <= j < |mm| ==> mm[j] < |stages[s]|) && merged == Absorbed(old(merged), stages, s, mm)
    {
      hide GreedyMatching, ByDistance, Absorbed, Absorb;
      var subStage := stages[s];
      subStageUsed := new bool[|subStage|](_ => false);
      var mergedUsed := new bool[|merged|](_ => false);
      cm, mm := seq(|subStage|, _ => -1), seq(|merged|, _ => -1);
      Matching.NothingMatched(cm, mm, infos, distance);
      NothingAbsorbed(merged, stages, s, mm);
      var i := 0;
      while i < |infos|
        invariant 0 <= i <= |infos| && |cm| == subStageUsed.Length && |mm| == mergedUsed.Length == |merged|
        invariant Progress(cm, mm, infos, i, distance)
        invariant forall k :: 0 <= k < |cm| ==> (subStageUsed[k] <==> cm[k] >= 0)
        invariant forall k :: 0 <= k < |mm| ==> (mergedUsed[k] <==> mm[k] >= 0)
        invariant merged == Absorbed(old(merged), stages, s, mm)
      {
        var ti := infos[i];
        ProgressStep(cm, mm, infos, i, distance);
        if !subStageUsed[ti.currentIndex] && !mergedUsed[ti.mergedIndex] {
          AbsorbOne(old(merged), stages, s, mm, ti.mergedIndex, ti.currentIndex);
          var t := merged[ti.mergedIndex];
          merged := merged[ti.mergedIndex := Absorb(t, subStage[ti.currentIndex], Source(s, ti.currentIndex))];
          subStageUsed[ti.currentIndex] := true;
          mergedUsed[ti.mergedIndex] := true;
          cm, mm := cm[ti.currentIndex := ti.mergedIndex], mm[ti.mergedIndex := ti.currentIndex];
        }
        i := i + 1;
      }
      ProgressEnds(cm, mm, infos, i, |subStage|, |mm|, distance, uniteDistance, false);
    }

    /** One stage merged in: the closest pairs within the distance are mixed, the rest is added. */
    method MergeStage(stages: Stages, s: nat, distance: (Body, Body) -> real, uniteDistance: real)
      returns (ghost cm: seq<int>, ghost mm: seq<int>)
      requires s < |stages|
      modifies this
      ensures |cm| == |stages[s]| && |mm| == |old(merged)| && (forall j :: 0 <= j < |mm| ==> mm[j] < |stages[s]|)
      ensures GreedyMatching(cm, mm, DistanceTo(stages[s], old(merged), distance), uniteDistance, false)
      ensures merged == Absorbed(old(merged), stages, s, mm) + Newcomers(stages, s, cm, |cm|)
      ensures forall j :: 0 <= j < |mm| && mm[j] >= 0 ==>
        distance(stages[s][mm[j]], old(merged)[j].body) <= uniteDistance
      ensures forall i, j :: 0 <= i < |cm| && 0 <= j < |mm| && cm[i] < 0 && mm[j] < 0 ==>
        distance(stages[s][i], old(merged)[j].body) > uniteDistance
    {
      hide GreedyMatching, AreCrossPairs, Absorbed, ByDistance, Newcomers;
      var subStage := stages[s];
      var apart := DistanceTo(subStage, merged, distance);
      var pairs := CollectCrossPairs(|subStage|, |merged|, apart, uniteDistance);
      var infos := SortByDistance(pairs);
      SortedCrossPairs(pairs, infos, |subStage|, |merged|, apart, uniteDistance);
      var used;
      used, cm, mm := AbsorbMatched(stages, s, infos, apart, uniteDistance);
      PartnersAreNear(subStage, old(merged), cm, mm, distance, uniteDistance);
      ghost var before := merged;
      var i := |subStage|;
      while i > 0
        invariant 0 <= i <= |subStage| == |cm|
        invariant forall k :: 0 <= k < |cm| ==> (used[k] <==> cm[k] >= 0)
        invariant merged + Newcomers(stages, s, cm, i) == before + Newcomers(stages, s, cm, |cm|)
      {
        i := i - 1;
        var newcomer := Founded(subStage[i], Source(s, i));
        NewcomersSteps(stages, s, cm, i, merged);
        if !used[i] {
          merged := merged + [newcomer];
        }
      }
      assert Newcomers(stages, s, cm, 0) == [] by { NoNewcomers(stages, s, cm); }
    }

    /** All stages, the last one first: every trackable of every stage ends in exactly one of the layer. */
    method MergeSubStages(stages: Stages, distance: (Body, Body) -> real, uniteDistance: real)
      requires merged == []
      modifies this
      ensures LayerOk(stages, merged, 0)
    {
      hide LayerOk, GreedyMatching, Absorbed, Newcomers;
      var s := |stages|;
      EmptyLayerIsOk(stages);
      while s > 0
        invariant 0 <= s <= |stages| && LayerOk(stages, merged, s)
      {
        s := s - 1;
        ghost var before := merged;
        ghost var cm, mm := MergeStage(stages, s, distance, uniteDistance);
        GreedyIsInverse(cm, mm, DistanceTo(stages[s], before, distance), uniteDistance);
        StageKeepsLayer(stages, before, s, cm, mm);
      }
    }
  }

  lemma NoNewcomers(stages: Stages, s: nat, cm: seq<int>)
    requires s < |stages| && |cm| == |stages[s]|
    ensures Newcomers(stages, s, cm, 0) == []
  {
  }

  lemma NothingAbsorbed(layer: seq<Merged>, stages: Stages, s: nat, mm: seq<int>)
    requires s < |stages| && |mm| == |layer| && forall j :: 0 <= j < |mm| ==> mm[j] == -1
    ensures Absorbed(layer, stages, s, mm) == layer
  {
  }

  lemma EmptyLayerIsOk(stages: Stages)
    ensures LayerOk(stages, [], |stages|)
  {
  }

  lemma GreedyIsInverse(cm: seq<int>, mm: seq<int>, distance: (nat, nat) -> real, limit: real)
    requires GreedyMatching(cm, mm, distance, limit, false)
    ensures Inverse(cm, mm)
  {
  }
}
