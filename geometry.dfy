/**
 * Integer plane geometry for the sketchpad: pointer positions, offsets
 * and the axis-aligned rectangle inside which strokes may be drawn.
 */
module Geometry {

  /** A position (or an offset) in window pixels. */
  datatype Point = Point(x: int, y: int)

  function Add(p: Point, q: Point): Point
  {
    Point(p.x + q.x, p.y + q.y)
  }

  function Sub(p: Point, q: Point): Point
  {
    Point(p.x - q.x, p.y - q.y)
  }

  /** A rectangle given by its top-left corner and its size, as paper.js builds one from four numbers. */
  datatype Rect = Rect(x: int, y: int, width: int, height: int)

  /**
   * The containment test behind the sketching bounds. The edge treatment of
   * the library's test is not part of this model; the model assumes the
   * rectangle is closed on all four edges, so a rectangle with a negative
   * width or height contains no point.
   */
  predicate IsInside(p: Point, r: Rect)
  {
    r.x <= p.x <= r.x + r.width && r.y <= p.y <= r.y + r.height
  }
}
