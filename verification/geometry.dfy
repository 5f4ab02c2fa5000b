/** Axis-aligned rectangles and the strict overlap test used for collisions. */
module Geometry {

  datatype Rect = Rect(x: real, y: real, width: real, height: real)

  /** The open intervals (lo1, hi1) and (lo2, hi2) share a segment of positive length. */
  predicate OpenIntervalsMeet(lo1: real, hi1: real, lo2: real, hi2: real)
  {
    (if lo1 >= lo2 then lo1 else lo2) < (if hi1 <= hi2 then hi1 else hi2)
  }

  /** The two rectangles share a region of positive area. */
  predicate PositiveOverlap(a: Rect, b: Rect)
  {
    && OpenIntervalsMeet(a.x, a.x + a.width, b.x, b.x + b.width)
    && OpenIntervalsMeet(a.y, a.y + a.height, b.y, b.y + b.height)
  }

  predicate ProperRect(r: Rect) { r.width > 0.0 && r.height > 0.0 }

  /** Rectangles that merely touch along an edge: the right edge of `a` is the left edge of `b`. */
  predicate TouchHorizontally(a: Rect, b: Rect) { a.x + a.width == b.x }

  /** The collision test: strict inequalities on all four half-planes. */
  function IsColliding(a: Rect, b: Rect): (hit: bool)
    ensures ProperRect(a) && ProperRect(b) ==> (hit <==> PositiveOverlap(a, b))
    ensures TouchHorizontally(a, b) || TouchHorizontally(b, a) ==> !hit
    ensures a.y + a.height == b.y || b.y + b.height == a.y ==> !hit
  {
    && a.x < b.x + b.width
    && a.x + a.width > b.x
    && a.y < b.y + b.height
    && a.y + a.height > b.y
  }

  /** The collision test does not depend on the order of its arguments. */
  lemma CollisionSymmetric(a: Rect, b: Rect)
    ensures IsColliding(a, b) == IsColliding(b, a)
  {
  }
}
