/** Clip-space geometry the vertex stage writes into: 4-component positions,
    the perspective divide onto the clip plane, and closed/open containment of
    a point in a triangle. */
module ClipSpace {

  /** A clip-space position. The vertex stage only ever writes small integers
      into it (each exact as f32), so the components are held as `int`. */
  datatype Vec4 = Vec4(x: int, y: int, z: int, w: int)

  /** A point of the clip plane after the perspective divide. */
  datatype Point = Point(x: real, y: real)

  datatype Triangle = Triangle(a: Point, b: Point, c: Point)

  /** The perspective divide: the point whose coordinates, scaled by `w`, give back `x` and `y`. */
  function Ndc(v: Vec4): (p: Point)
    requires v.w != 0
    ensures p.x * v.w as real == v.x as real
    ensures p.y * v.w as real == v.y as real
  {
    Point(v.x as real / v.w as real, v.y as real / v.w as real)
  }

  /** Twice the signed area of (a, b, p): positive when `p` is left of the directed edge a→b,
      zero when it lies on the line through them. */
  function Orient(a: Point, b: Point, p: Point): real {
    (b.x - a.x) * (p.y - a.y) - (b.y - a.y) * (p.x - a.x)
  }

  /** Twice the signed area of a triangle. */
  function TwiceArea(t: Triangle): real {
    Orient(t.a, t.b, t.c)
  }

  /** The corners run counter-clockwise, so the triangle is front-facing and not degenerate. */
  predicate CounterClockwise(t: Triangle) {
    TwiceArea(t) > 0.0
  }

  /** `p` lies in the closed counter-clockwise triangle `t`: on or left of every edge. */
  predicate Covers(t: Triangle, p: Point) {
    && Orient(t.a, t.b, p) >= 0.0
    && Orient(t.b, t.c, p) >= 0.0
    && Orient(t.c, t.a, p) >= 0.0
  }

  /** `p` lies in the interior of the counter-clockwise triangle `t`, on no edge. */
  predicate StrictlyCovers(t: Triangle, p: Point) {
    && Orient(t.a, t.b, p) > 0.0
    && Orient(t.b, t.c, p) > 0.0
    && Orient(t.c, t.a, p) > 0.0
  }

  /** The visible clip square [-1, 1] x [-1, 1]: what survives clipping and reaches the viewport. */
  predicate InClipSquare(p: Point) {
    -1.0 <= p.x <= 1.0 && -1.0 <= p.y <= 1.0
  }
}
