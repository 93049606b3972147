/** Points, sizes and axis-aligned bounds over exact reals, with the operations the bounds tree uses. */
module Geometry {

  datatype Point = Point(x: real, y: real) {

    /** The componentwise minimum. */
    function Min(other: Point): Point {
      Point(if x <= other.x then x else other.x, if y <= other.y then y else other.y)
    }

    /** The componentwise maximum. */
    function Max(other: Point): Point {
      Point(if x > other.x then x else other.x, if y > other.y then y else other.y)
    }
  }

  datatype Size = Size(width: real, height: real)

  /** A rectangle given by its top-left corner and its size; nothing forces the size to be positive. */
  datatype Bounds = Bounds(origin: Point, size: Size) {

    static function FromCorners(topLeft: Point, bottomRight: Point): Bounds {
      Bounds(topLeft, Size(bottomRight.x - topLeft.x, bottomRight.y - topLeft.y))
    }

    function BottomRight(): Point {
      Point(origin.x + size.width, origin.y + size.height)
    }

    predicate Intersects(other: Bounds) {
      && origin.x < other.BottomRight().x
      && BottomRight().x > other.origin.x
      && origin.y < other.BottomRight().y
      && BottomRight().y > other.origin.y
    }

    function Union(other: Bounds): Bounds {
      FromCorners(origin.Min(other.origin), BottomRight().Max(other.BottomRight()))
    }

    function HalfPerimeter(): real {
      size.width + size.height
    }

    /** Both corners of `inner` lie within the corners of this rectangle. */
    ghost predicate Covers(inner: Bounds) {
      && origin.x <= inner.origin.x
      && origin.y <= inner.origin.y
      && inner.BottomRight().x <= BottomRight().x
      && inner.BottomRight().y <= BottomRight().y
    }
  }

  /** Union is the least upper bound of the covering order: it covers both arguments,
      and whatever covers both arguments covers the union. */
  lemma UnionIsLeastCover(a: Bounds, b: Bounds, c: Bounds)
    ensures a.Union(b).Covers(a) && a.Union(b).Covers(b)
    ensures c.Covers(a) && c.Covers(b) <==> c.Covers(a.Union(b))
  {
  }

  lemma IntersectsSymmetric(a: Bounds, b: Bounds)
    ensures a.Intersects(b) <==> b.Intersects(a)
  {
  }

  /** What justifies spatial pruning: a query that misses a covering box misses everything inside it. */
  lemma CoverKeepsIntersection(outer: Bounds, inner: Bounds, query: Bounds)
    requires outer.Covers(inner) && query.Intersects(inner)
    ensures query.Intersects(outer)
  {
  }

  // ----- rectangles as sets of points -----

  /** Strictly between the edges, told from corner, width and height. */
  ghost predicate Inside(b: Bounds, p: Point) {
    && b.origin.x < p.x < b.origin.x + b.size.width
    && b.origin.y < p.y < b.origin.y + b.size.height
  }

  predicate HasArea(b: Bounds) {
    b.size.width > 0.0 && b.size.height > 0.0
  }

  ghost predicate SharePoint(a: Bounds, b: Bounds) {
    exists p :: Inside(a, p) && Inside(b, p)
  }

  /** Halfway between the later start and the earlier end of two intervals. */
  function Halfway(a: real, aLength: real, b: real, bLength: real): real {
    ((if a >= b then a else b) + (if a + aLength <= b + bLength then a + aLength else b + bLength)) / 2.0
  }

  /** Rectangles with an area intersect exactly when they have an inner point in common. */
  lemma IntersectIffSharePoint(a: Bounds, b: Bounds)
    requires HasArea(a) && HasArea(b)
    ensures a.Intersects(b) <==> SharePoint(a, b)
  {
    if a.Intersects(b) {
      var p := Point(Halfway(a.origin.x, a.size.width, b.origin.x, b.size.width),
                     Halfway(a.origin.y, a.size.height, b.origin.y, b.size.height));
      assert Inside(a, p) && Inside(b, p);
    }
  }

  /** A rectangle with an area is covered exactly when all its inner points lie inside. */
  lemma CoversIffContains(outer: Bounds, inner: Bounds)
    requires HasArea(inner)
    ensures outer.Covers(inner) <==> forall p :: Inside(inner, p) ==> Inside(outer, p)
  {
    if !outer.Covers(inner) {
      var p := UncoveredPoint(outer, inner);
      assert Inside(inner, p) && !Inside(outer, p);
    }
  }

  /** An inner point of one rectangle that lies outside another that does not cover it. */
  lemma UncoveredPoint(outer: Bounds, inner: Bounds) returns (p: Point)
    requires HasArea(inner) && !outer.Covers(inner)
    ensures Inside(inner, p) && !Inside(outer, p)
  {
    var x := UncoveredCoordinate(outer.origin.x, outer.size.width, inner.origin.x, inner.size.width);
    var y := UncoveredCoordinate(outer.origin.y, outer.size.height, inner.origin.y, inner.size.height);
    p := Point(x, y);
  }

  lemma UncoveredCoordinate(outer: real, outerLength: real, inner: real, length: real) returns (x: real)
    requires length > 0.0
    ensures inner < x < inner + length
    ensures outer > inner || inner + length > outer + outerLength ==> !(outer < x < outer + outerLength)
  {
    if outer > inner {
      x := inner + (if outer - inner < length then outer - inner else length / 2.0);
    } else if inner + length > outer + outerLength {
      var past := outer + outerLength;
      x := if past > inner then past else inner + length / 2.0;
    } else {
      x := inner + length / 2.0;
    }
  }

  /** Covering costs: the half perimeter grows with the rectangle, and strictly unless it stays the same. */
  lemma CoveringCosts(outer: Bounds, inner: Bounds)
    requires outer.Covers(inner)
    ensures inner.HalfPerimeter() <= outer.HalfPerimeter()
    ensures inner.HalfPerimeter() == outer.HalfPerimeter() <==> inner == outer
  {
  }
}
