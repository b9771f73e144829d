/** Field geometry and the axis-aligned bounding-box collision test. */
module Geometry {

  /** Y coordinate of the ground line; y grows downwards, as on a canvas. */
  const GROUND_Y: real := 250.0

  /** An axis-aligned rectangle: top-left corner, width and height. */
  datatype Rect = Rect(x: real, y: real, width: real, height: real)

  /** `isColliding`: the two rectangles overlap on both axes, with all four
      comparisons strict, so rectangles that only share an edge do not collide. */
  predicate IsColliding(a: Rect, b: Rect)
    ensures IsColliding(a, b) ==> a.width + b.width > 0.0 && a.height + b.height > 0.0
  {
    && a.x < b.x + b.width
    && a.x + a.width > b.x
    && a.y < b.y + b.height
    && a.y + a.height > b.y
  }

  /** A rectangle with positive extent on both axes (every entity of the game). */
  predicate Proper(r: Rect)
  {
    r.width > 0.0 && r.height > 0.0
  }

  /** The point (px, py) lies in the open interior of r. */
  predicate Inside(r: Rect, px: real, py: real)
  {
    r.x < px < r.x + r.width && r.y < py < r.y + r.height
  }

  function Max(a: real, b: real): real
  {
    if a < b then b else a
  }

  function Min(a: real, b: real): real
  {
    if a < b then a else b
  }

  lemma CollidingIsSymmetric(a: Rect, b: Rect)
    ensures IsColliding(a, b) <==> IsColliding(b, a)
  {
  }

  lemma TouchingEdgesDoNotCollide(a: Rect, b: Rect)
    requires || a.x + a.width == b.x || b.x + b.width == a.x
             || a.y + a.height == b.y || b.y + b.height == a.y
    ensures !IsColliding(a, b)
  {
  }

  /** The collision test agrees with an independent definition: two proper
      rectangles collide exactly when their open interiors share a point. */
  lemma CollidingIffCommonInteriorPoint(a: Rect, b: Rect)
    requires Proper(a) && Proper(b)
    ensures IsColliding(a, b) <==> exists px, py :: Inside(a, px, py) && Inside(b, px, py)
  {
    if IsColliding(a, b) {
      var px := (Max(a.x, b.x) + Min(a.x + a.width, b.x + b.width)) / 2.0;
      var py := (Max(a.y, b.y) + Min(a.y + a.height, b.y + b.height)) / 2.0;
      assert Inside(a, px, py) && Inside(b, px, py);
    }
  }

  /** Two worked cases: boxes sharing the edge x == 10 do not collide, boxes
      overlapping on a 5 by 5 square do. */
  lemma EdgeAndOverlapExamples()
    ensures !IsColliding(Rect(0.0, 0.0, 10.0, 10.0), Rect(10.0, 0.0, 10.0, 10.0))
    ensures IsColliding(Rect(0.0, 0.0, 10.0, 10.0), Rect(5.0, 5.0, 10.0, 10.0))
  {
  }
}
