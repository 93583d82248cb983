/**
 * Vectors and the axis-aligned bounding-box test used by the collision system.
 * World coordinates are modelled as reals; the game computes them in 32-bit floats.
 */
module Geometry {

  datatype Vec2 = Vec2(x: real, y: real)

  datatype Vec3 = Vec3(x: real, y: real, z: real)

  /** The x and y parts of a 3-vector (the game's `scale.xy()` and `truncate()`). */
  function Xy(v: Vec3): Vec2 {
    Vec2(v.x, v.y)
  }

  /** Component-wise product: a sprite size multiplied by its transform's scale. */
  function Mul(a: Vec2, b: Vec2): Vec2 {
    Vec2(a.x * b.x, a.y * b.y)
  }

  function Abs(r: real): real {
    if r < 0.0 then -r else r
  }

  /**
   * Two boxes of full extent `wa` and `wb` centred at `ca` and `cb` overlap on one axis:
   * each one's minimum lies strictly below the other's maximum. Boxes that only touch
   * along an edge do not overlap.
   */
  predicate IntervalsOverlap(ca: real, wa: real, cb: real, wb: real) {
    ca - wa / 2.0 < cb + wb / 2.0 && cb - wb / 2.0 < ca + wa / 2.0
  }

  /**
   * The AABB test of the game's collision system: the box of size `aSize` centred at
   * `aPos` and the box of size `bSize` centred at `bPos` overlap on both the x and the
   * y axis. The z coordinate plays no part.
   */
  predicate Collide(aPos: Vec3, aSize: Vec2, bPos: Vec3, bSize: Vec2) {
    && IntervalsOverlap(aPos.x, aSize.x, bPos.x, bSize.x)
    && IntervalsOverlap(aPos.y, aSize.y, bPos.y, bSize.y)
  }

  /** The interval form of the test is the centre-distance form: |dx| < (wa + wb) / 2 on each axis. */
  lemma CollideIffCentreDistance(aPos: Vec3, aSize: Vec2, bPos: Vec3, bSize: Vec2)
    ensures Collide(aPos, aSize, bPos, bSize) <==>
            && Abs(aPos.x - bPos.x) < (aSize.x + bSize.x) / 2.0
            && Abs(aPos.y - bPos.y) < (aSize.y + bSize.y) / 2.0
  {
  }

  /** The test does not depend on which box is named first. */
  lemma CollideSymmetric(aPos: Vec3, aSize: Vec2, bPos: Vec3, bSize: Vec2)
    ensures Collide(aPos, aSize, bPos, bSize) <==> Collide(bPos, bSize, aPos, aSize)
  {
  }

  /** Boxes whose centres are exactly half their summed widths apart touch and do not collide. */
  lemma TouchingBoxesDoNotCollide(aPos: Vec3, aSize: Vec2, bPos: Vec3, bSize: Vec2)
    requires Abs(aPos.x - bPos.x) == (aSize.x + bSize.x) / 2.0
    ensures !Collide(aPos, aSize, bPos, bSize)
  {
  }
}
