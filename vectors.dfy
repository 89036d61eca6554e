/**
 * Coordinates of control points. The editor stores a point as a
 * two-element array `[x, y]`; De Casteljau's algorithm works on arrays of
 * any length, coordinate by coordinate, so a point is a vector whose
 * dimension is 2.
 */
module Vectors {

  /** A coordinate vector of any dimension. */
  type Vec = seq<real>

  /** A position `[x, y]` on the drawing surface. */
  type Point = v: Vec | |v| == 2 witness [0.0, 0.0]

  /** The translation that takes `q` to `p`. */
  function Sub(p: Point, q: Point): Point
  {
    [p[0] - q[0], p[1] - q[1]]
  }

  /** `p` translated by `d`. */
  function Add(p: Point, d: Point): Point
  {
    [p[0] + d[0], p[1] + d[1]]
  }

  /**
   * The reflection of `point` through `centerPoint`: twice the vector from
   * `point` to the centre, added to `point`.
   */
  function MirrorOverPoint(point: Point, centerPoint: Point): (r: Point)
    // the centre is the midpoint of the point and its mirror image
    ensures (point[0] + r[0]) / 2.0 == centerPoint[0]
    ensures (point[1] + r[1]) / 2.0 == centerPoint[1]
    // equivalently, the mirror image is 2c - p
    ensures r == [2.0 * centerPoint[0] - point[0], 2.0 * centerPoint[1] - point[1]]
  {
    var deltaX := centerPoint[0] - point[0];
    var deltaY := centerPoint[1] - point[1];
    [point[0] + deltaX * 2.0, point[1] + deltaY * 2.0]
  }

  /** Mirroring twice through the same centre gives back the point. */
  lemma MirrorTwice(p: Point, c: Point)
    ensures MirrorOverPoint(MirrorOverPoint(p, c), c) == p
  {
  }

  /** A point mirrored through itself stays where it is. */
  lemma MirrorThroughSelf(p: Point)
    ensures MirrorOverPoint(p, p) == p
  {
  }
}
