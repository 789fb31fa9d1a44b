/** The regions of an observer: which points they hold, and over which edge an object comes and goes. */
module Regions {
  import opened Common

  datatype Edge = EdgeNone | EdgeLeft | EdgeRight | EdgeTop | EdgeBottom

  datatype Shape = ShapeRect | ShapeEllipse

  datatype Rect = Rect(x: real, y: real, width: real, height: real, invert: bool, edge: Edge, shape: Shape)

  /** With `united` the list acts as a single region that is reported under the name of the default one. */
  datatype Rects = Rects(united: bool, defaultRect: Rect, list: seq<Rect>)

  function NumRects(rects: Rects): nat {
    if !rects.united && |rects.list| > 0 then |rects.list| else 1
  }

  function RectOf(rects: Rects, i: nat): Rect
    requires i < NumRects(rects)
  {
    if !rects.united && |rects.list| > 0 then rects.list[i] else rects.defaultRect
  }

  // ---- points ----

  /** The ellipse is tested as a circle after its height was stretched to its width. */
  predicate InShape(r: Rect, x: real, y: real) {
    match r.shape
    case ShapeRect => r.x <= x <= r.x + r.width && r.y <= y <= r.y + r.height
    case ShapeEllipse =>
      && r.height != 0.0 && r.width >= 0.0
      && Square(x - (r.x + 0.5 * r.width)) +
        Square((y - (r.y + 0.5 * r.height)) * (r.width / r.height)) <= Square(0.5 * r.width)
  }

  /** A point is in a union when the first shape that holds it is not inverted. */
  ghost predicate InUnion(list: seq<Rect>, x: real, y: real) {
    exists i :: 0 <= i < |list| && IsFirst(list, x, y, i) && !list[i].invert
  }

  ghost predicate IsFirst(list: seq<Rect>, x: real, y: real, i: nat)
    requires i < |list|
  {
    InShape(list[i], x, y) && forall j :: 0 <= j < i ==> !InShape(list[j], x, y)
  }

  /** Without any region everything is inside. */
  ghost predicate Contains(rects: Rects, i: nat, x: real, y: real)
    requires i < NumRects(rects)
  {
    if rects.list == [] then true
    else if rects.united then InUnion(rects.list, x, y)
    else InShape(rects.list[i], x, y) != rects.list[i].invert
  }

  method ContainsPoint(rects: Rects, rectIndex: nat, x: real, y: real) returns (contains: bool)
    requires rectIndex < NumRects(rects)
    ensures contains == Contains(rects, rectIndex, x, y)
  {
    if |rects.list| > 0 {
      if !rects.united {
        var rect := rects.list[rectIndex];
        contains := InShape(rect, x, y);
        if rect.invert {
          return !contains;
        }
        return contains;
      }
      for i := 0 to |rects.list|
        invariant forall j :: 0 <= j < i ==> !InShape(rects.list[j], x, y)
      {
        if InShape(rects.list[i], x, y) {
          assert IsFirst(rects.list, x, y, i);
          return !rects.list[i].invert;
        }
      }
      return false;
    }
    return true;
  }

  /** A union of regions none of which is inverted is their union. */
  lemma UnionOfPlainRegions(list: seq<Rect>, x: real, y: real)
    requires forall i :: 0 <= i < |list| ==> !list[i].invert
    ensures InUnion(list, x, y) <==> exists i :: 0 <= i < |list| && InShape(list[i], x, y)
  {
    if i :| 0 <= i < |list| && InShape(list[i], x, y) {
      FirstExists(list, x, y, i);
    }
  }

  lemma {:induction false} FirstExists(list: seq<Rect>, x: real, y: real, i: nat)
    requires i < |list| && InShape(list[i], x, y)
    ensures exists k :: 0 <= k <= i && IsFirst(list, x, y, k)
  {
    if j :| 0 <= j < i && InShape(list[j], x, y) {
      FirstExists(list, x, y, j);
    } else {
      assert IsFirst(list, x, y, i);
    }
  }

  /** The test is the equation of the ellipse inscribed in the rectangle. */
  lemma InsideTheEllipse(r: Rect, x: real, y: real)
    requires r.shape == ShapeEllipse && r.width > 0.0 && r.height != 0.0
    ensures InShape(r, x, y) <==>
      Square((x - (r.x + 0.5 * r.width)) / (0.5 * r.width)) +
        Square((y - (r.y + 0.5 * r.height)) / (0.5 * r.height)) <= 1.0
  {
    var a, b := 0.5 * r.width, 0.5 * r.height;
    var dx, dy := x - (r.x + a), y - (r.y + b);
    var ratio := r.width / r.height;
    assert ratio == a / b;
    ScaledToCircle(dx, dy, a, b, ratio);
    assert InShape(r, x, y) <==> Square(dx) + Square(dy * ratio) <= Square(a);
    SquareIsPositive(a);
    ScaledBound(Square(dx / a) + Square(dy / b), Square(a));
  }

  lemma ScaledToCircle(dx: real, dy: real, a: real, b: real, ratio: real)
    requires a > 0.0 && b != 0.0 && ratio == a / b
    ensures Square(dx) + Square(dy * ratio) == (Square(dx / a) + Square(dy / b)) * Square(a)
  {
    var u, v := dx / a, dy / b;
    assert dx == u * a;
    assert dy * ratio == v * a;
    SquareOfProduct(u, a);
    SquareOfProduct(v, a);
    SumTimes(Square(u), Square(v), Square(a));
  }

  lemma SumTimes(s: real, t: real, p: real)
    ensures s * p + t * p == (s + t) * p
  {
  }

  lemma SquareOfProduct(u: real, a: real)
    ensures Square(u * a) == Square(u) * Square(a)
  {
  }

  lemma ScaledBound(s: real, p: real)
    requires p > 0.0
    ensures s * p <= p <==> s <= 1.0
  {
  }

  // ---- edges ----

  function Abs(a: real): real {
    if a < 0.0 then -a else a
  }

  /** The side of the origin a point is on. */
  function Side(x: real, y: real): Edge {
    if Abs(x) > Abs(y) then if x < 0.0 then EdgeLeft else EdgeRight
    else if y < 0.0 then EdgeBottom
    else EdgeTop
  }

  /** Several regions united have no edge; a region that watches one edge reports no other. */
  function EdgeCrossed(rects: Rects, i: nat, x: real, y: real): Edge
    requires i < NumRects(rects)
  {
    if rects.united && |rects.list| != 1 then EdgeNone
    else
      var edge := RectOf(rects, i).edge;
      if edge == EdgeNone || edge == Side(x, y) then Side(x, y) else EdgeNone
  }

  function CountEdge(rects: Rects, i: nat, edge: Edge): (count: nat)
    requires i < NumRects(rects)
    ensures count <= 1
  {
    if edge == EdgeNone || (rects.united && |rects.list| != 1) then 0
    else if edge == RectOf(rects, i).edge then 1
    else 0
  }

  /** Left and right are the sectors in which a point is farther aside than up or down; the diagonals belong to top and
      bottom, and so does the origin to the top. */
  predicate LiesOn(edge: Edge, x: real, y: real) {
    match edge
    case EdgeNone => false
    case EdgeLeft => x < 0.0 && x < y < -x
    case EdgeRight => x > 0.0 && -x < y < x
    case EdgeBottom => y < 0.0 && y <= x <= -y
    case EdgeTop => y >= 0.0 && -y <= x <= y
  }

  /** Every point lies on exactly one side, and it is the one the program finds. */
  lemma SidesDivideThePlane(x: real, y: real, edge: Edge)
    ensures LiesOn(edge, x, y) <==> edge == Side(x, y)
  {
  }

  /** The region that tells the edge to watch: with several regions each one for itself, with one or none, or when all
      count as one, the only one there is or the default. */
  predicate Watches(rects: Rects, i: nat, edge: Edge)
    requires i < NumRects(rects)
  {
    if rects.united then |rects.list| == 1 && rects.defaultRect.edge == edge
    else if rects.list == [] then rects.defaultRect.edge == edge
    else i < |rects.list| && rects.list[i].edge == edge
  }

  /** A crossing is counted exactly when the region watches the side on which the point lies. */
  lemma CountedCrossings(rects: Rects, i: nat, x: real, y: real)
    requires i < NumRects(rects)
    ensures CountEdge(rects, i, EdgeCrossed(rects, i, x, y)) == 1 <==>
      exists edge :: edge != EdgeNone && Watches(rects, i, edge) && LiesOn(edge, x, y)
  {
    SidesDivideThePlane(x, y, RectOf(rects, i).edge);
  }

  /** What is reported: the side on which the point lies, unless the region watches another one. */
  lemma ReportedCrossings(rects: Rects, i: nat, x: real, y: real)
    requires i < NumRects(rects)
    ensures var edge := EdgeCrossed(rects, i, x, y);
      && (edge != EdgeNone ==> LiesOn(edge, x, y))
      && (edge == EdgeNone <==>
            (rects.united && |rects.list| != 1) ||
            exists watched :: watched != EdgeNone && Watches(rects, i, watched) && !LiesOn(watched, x, y))
  {
    SidesDivideThePlane(x, y, EdgeCrossed(rects, i, x, y));
    SidesDivideThePlane(x, y, RectOf(rects, i).edge);
  }

  // ---- which region is asked ----

  /** Regions that stand for themselves are asked one by one; united ones, or none, are one region. */
  lemma RegionsAreAsked(rects: Rects)
    ensures !rects.united && rects.list != [] ==> NumRects(rects) == |rects.list|
    ensures !rects.united ==> forall i :: 0 <= i < |rects.list| ==> RectOf(rects, i) == rects.list[i]
    ensures rects.united || rects.list == [] ==> NumRects(rects) == 1 && RectOf(rects, 0) == rects.defaultRect
  {
  }

  /** An edge counts iff it is the one the region watches. */
  lemma CountedEdges(rects: Rects, i: nat, edge: Edge)
    requires i < NumRects(rects)
    ensures CountEdge(rects, i, edge) == if edge != EdgeNone && Watches(rects, i, edge) then 1 else 0
  {
  }

  /** A rectangle holds the points that are at most half its width and half its height away from its middle. */
  lemma InsideTheRectangle(r: Rect, x: real, y: real)
    requires r.shape == ShapeRect
    ensures InShape(r, x, y) <==>
      2.0 * Abs(x - (r.x + r.width / 2.0)) <= r.width && 2.0 * Abs(y - (r.y + r.height / 2.0)) <= r.height
  {
  }

  /** An ellipse without height or with a negative width holds nothing; without width it is the line through its
      middle. */
  lemma FlatEllipses(r: Rect, x: real, y: real)
    requires r.shape == ShapeEllipse && (r.width <= 0.0 || r.height == 0.0)
    ensures InShape(r, x, y) <==> r.width == 0.0 && r.height != 0.0 && x == r.x
  {
    hide Square;
    if r.width == 0.0 && r.height != 0.0 {
      NoRatio(r.width, r.height, y - (r.y + 0.5 * r.height));
      assert x - (r.x + 0.5 * r.width) == x - r.x && 0.5 * r.width == 0.0;
      SquareIsPositive(x - r.x);
      SquareIsPositive(0.0);
      OnlyZeroSquare(x - r.x);
    }
  }

  lemma NoRatio(w: real, h: real, y: real)
    requires w == 0.0 && h != 0.0
    ensures y * (w / h) == 0.0
  {
    assert w / h == 0.0;
  }

  lemma OnlyZeroSquare(t: real)
    ensures Square(0.0) == 0.0 && (Square(t) <= 0.0 <==> t == 0.0)
  {
    SquareIsPositive(t);
  }

  /** Of regions that stand for themselves each holds its shape, or if it is inverted everything else. */
  lemma EachRegionItself(rects: Rects, i: nat, x: real, y: real)
    requires i < NumRects(rects)
    ensures rects.list == [] ==> Contains(rects, i, x, y)
    ensures !rects.united && rects.list != [] && !rects.list[i].invert ==>
      (Contains(rects, i, x, y) <==> InShape(rects.list[i], x, y))
    ensures !rects.united && rects.list != [] && rects.list[i].invert ==>
      (Contains(rects, i, x, y) <==> !InShape(rects.list[i], x, y))
    ensures rects.united && rects.list != [] ==> (Contains(rects, i, x, y) <==> InUnion(rects.list, x, y))
  {
    hide InShape, InUnion;
  }

  /** United regions are asked in order: the first whose shape holds the point decides. */
  lemma FirstRegionDecides(r: Rect, list: seq<Rect>, x: real, y: real)
    ensures InUnion([r] + list, x, y) <==> if InShape(r, x, y) then !r.invert else InUnion(list, x, y)
    ensures !InUnion([], x, y)
  {
    hide InShape;
    var all := [r] + list;
    assert all[0] == r && forall i :: 0 < i < |all| ==> all[i] == list[i - 1];
    if InShape(r, x, y) {
      assert IsFirst(all, x, y, 0);
    } else {
      forall i: nat | i < |list| ensures IsFirst(list, x, y, i) <==> IsFirst(all, x, y, i + 1) {
        assert forall j :: 0 <= j < i ==> all[j + 1] == list[j];
        assert forall j :: 0 < j < i + 1 ==> all[j] == list[j - 1];
      }
      if i :| 0 <= i < |list| && IsFirst(list, x, y, i) && !list[i].invert {
        assert IsFirst(all, x, y, i + 1);
      }
      if i :| 0 <= i < |all| && IsFirst(all, x, y, i) && !all[i].invert {
        assert IsFirst(list, x, y, i - 1);
      }
    }
  }
}
