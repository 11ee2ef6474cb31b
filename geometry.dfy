/**
 * Axis-aligned geometry on real numbers: the sizes of viewports and canvases and the
 * boxes (x, y, w, h) that place pages on the canvas. Floating point is modelled by `real`.
 */
module Geometry {

  datatype Size = Size(width: real, height: real)

  datatype Box = Box(x: real, y: real, w: real, h: real) {
    function MaxX(): real { x + w }
    function MaxY(): real { y + h }
  }

  function Min(a: real, b: real): real { if a <= b then a else b }

  function Max(a: real, b: real): real { if a >= b then a else b }

  predicate NonNegative(b: Box) { b.w >= 0.0 && b.h >= 0.0 }

  /** `outer` covers `inner` on both axes. */
  predicate Contains(outer: Box, inner: Box) {
    outer.x <= inner.x && inner.MaxX() <= outer.MaxX() &&
    outer.y <= inner.y && inner.MaxY() <= outer.MaxY()
  }

  /**
   * The smallest box covering both `a` and `b` (the union of two boxes of the canvas library):
   * each edge of the result is an edge of one of the two boxes.
   */
  function Union(a: Box, b: Box): (r: Box)
    ensures NonNegative(a) && NonNegative(b) ==> NonNegative(r)
    ensures Contains(r, a) && Contains(r, b)
    ensures (r.x == a.x || r.x == b.x) && (r.y == a.y || r.y == b.y)
    ensures (r.MaxX() == a.MaxX() || r.MaxX() == b.MaxX()) && (r.MaxY() == a.MaxY() || r.MaxY() == b.MaxY())
  {
    var minX := Min(a.x, b.x);
    var minY := Min(a.y, b.y);
    var maxX := Max(a.MaxX(), b.MaxX());
    var maxY := Max(a.MaxY(), b.MaxY());
    Box(minX, minY, maxX - minX, maxY - minY)
  }

  /** Any box covering both `a` and `b` covers their union: the union is the least such box. */
  lemma UnionIsLeast(a: Box, b: Box, c: Box)
    requires Contains(c, a) && Contains(c, b)
    ensures Contains(c, Union(a, b))
  {
  }
}
