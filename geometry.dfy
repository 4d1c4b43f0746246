/**
 * Core Graphics values as the layout uses them. `CGFloat` becomes `real`;
 * rectangles are assumed standardised (non-negative width and height are not
 * enforced, and `minY`/`maxY` are read off the origin and height).
 */
module Geometry {

  datatype Size = Size(width: real, height: real)

  datatype Point = Point(x: real, y: real)

  datatype Insets = Insets(top: real, left: real, bottom: real, right: real)

  datatype Rect = Rect(origin: Point, size: Size) {
    function MinY(): real { origin.y }
    function MaxY(): real { origin.y + size.height }
  }

  const ZeroSize := Size(0.0, 0.0)
  const ZeroPoint := Point(0.0, 0.0)
  const ZeroInsets := Insets(0.0, 0.0, 0.0, 0.0)
  const ZeroRect := Rect(ZeroPoint, ZeroSize)

  function Max(a: real, b: real): (r: real)
    ensures r >= a && r >= b && (r == a || r == b)
  {
    if a >= b then a else b
  }

  function Min(a: real, b: real): (r: real)
    ensures r <= a && r <= b && (r == a || r == b)
  {
    if a <= b then a else b
  }

  /** Whether two rectangles overlap (touching edges do not count). */
  predicate Intersects(a: Rect, b: Rect) {
    a.origin.x < b.origin.x + b.size.width && b.origin.x < a.origin.x + a.size.width &&
    a.MinY() < b.MaxY() && b.MinY() < a.MaxY()
  }
}
