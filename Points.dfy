/**
 * The two boolean point tests of the helper `CollisionChecker`. Edges of the
 * rectangle and the boundary circle count as inside.
 */
module Points {
  import opened Vectors

  /** The point lies in the closed box [rx, rx + w] x [ry, ry + h]. */
  predicate PointInsideRectangle(px: real, py: real, rx: real, ry: real, w: real, h: real)
  {
    rx <= px && px <= rx + w && ry <= py && py <= ry + h
  }

  function SquaredDistance(px: real, py: real, cx: real, cy: real): real
  {
    Square(px - cx) + Square(py - cy)
  }

  lemma SquaredDistanceSymmetric(px: real, py: real, cx: real, cy: real)
    ensures SquaredDistance(px, py, cx, cy) == SquaredDistance(cx, cy, px, py)
  {
    SquareOfNegative(px - cx);
    SquareOfNegative(py - cy);
    assert cx - px == -(px - cx) && cy - py == -(py - cy);
  }

  /** The point lies in the closed disc of radius |r| around (cx, cy). */
  predicate PointInsideCircle(px: real, py: real, cx: real, cy: real, r: real)
  {
    SquaredDistance(px, py, cx, cy) <= Square(r)
  }

  /** All four corners of a rectangle with non-negative size are inside it. */
  lemma CornersInsideRectangle(rx: real, ry: real, w: real, h: real)
    requires 0.0 <= w && 0.0 <= h
    ensures PointInsideRectangle(rx, ry, rx, ry, w, h)
    ensures PointInsideRectangle(rx + w, ry, rx, ry, w, h)
    ensures PointInsideRectangle(rx, ry + h, rx, ry, w, h)
    ensures PointInsideRectangle(rx + w, ry + h, rx, ry, w, h)
  {
  }

  /** A rectangle with a negative width or height contains no point at all. */
  lemma NegativeRectangleIsEmpty(px: real, py: real, rx: real, ry: real, w: real, h: real)
    requires w < 0.0 || h < 0.0
    ensures !PointInsideRectangle(px, py, rx, ry, w, h)
  {
  }

  /** The centre is inside every circle, whatever the radius. */
  lemma CentreInsideCircle(cx: real, cy: real, r: real)
    ensures PointInsideCircle(cx, cy, cx, cy, r)
  {
    SquareNonNegative(r);
  }

  /** Points exactly on the circle, such as (cx + r, cy), count as inside; any further out do not. */
  lemma CircleBoundary(cx: real, cy: real, r: real, e: real)
    requires 0.0 <= r && 0.0 < e
    ensures PointInsideCircle(cx + r, cy, cx, cy, r)
    ensures !PointInsideCircle(cx + r + e, cy, cx, cy, r)
  {
    assert SquaredDistance(cx + r, cy, cx, cy) == Square(r);
    assert SquaredDistance(cx + r + e, cy, cx, cy) == Square(r + e);
    MultiplyStrict(r, r + e);
  }
}
