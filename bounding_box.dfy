/**
 * `StructurePiece.BoundingBox`: an axis-aligned box given by its min and max
 * corners, both inclusive, with the closed intersection test used for
 * collision avoidance between pieces.
 */
module BoundingBoxes {
  import opened Geometry

  datatype Box = Box(min: Vec3, max: Vec3)

  predicate Ordered(b: Box)
  {
    b.min.x <= b.max.x && b.min.y <= b.max.y && b.min.z <= b.max.z
  }

  /** The constructor normalises its corners, so every box has min <= max on every axis. */
  type BoundingBox = b: Box | Ordered(b) witness Box(Origin, Origin)

  function Min(a: int, b: int): int { if a <= b then a else b }
  function Max(a: int, b: int): int { if a <= b then b else a }

  /** `new BoundingBox(cornerA, cornerB)`: min and max taken component by component. */
  function MakeBox(a: Vec3, b: Vec3): (r: BoundingBox)
    ensures r.min.x <= a.x && r.min.x <= b.x && (r.min.x == a.x || r.min.x == b.x)
    ensures r.min.y <= a.y && r.min.y <= b.y && (r.min.y == a.y || r.min.y == b.y)
    ensures r.min.z <= a.z && r.min.z <= b.z && (r.min.z == a.z || r.min.z == b.z)
    ensures r.max.x >= a.x && r.max.x >= b.x && (r.max.x == a.x || r.max.x == b.x)
    ensures r.max.y >= a.y && r.max.y >= b.y && (r.max.y == a.y || r.max.y == b.y)
    ensures r.max.z >= a.z && r.max.z >= b.z && (r.max.z == a.z || r.max.z == b.z)
  {
    Box(Vec3(Min(a.x, b.x), Min(a.y, b.y), Min(a.z, b.z)),
        Vec3(Max(a.x, b.x), Max(a.y, b.y), Max(a.z, b.z)))
  }

  /** `getXSize()`: max.x - min.x, never negative. */
  function XSize(b: BoundingBox): (s: int)
    ensures s >= 0 && b.min.x + s == b.max.x
  {
    b.max.x - b.min.x
  }

  /** `getYSize()`: max.y - min.y, never negative. */
  function YSize(b: BoundingBox): (s: int)
    ensures s >= 0 && b.min.y + s == b.max.y
  {
    b.max.y - b.min.y
  }

  /** `getZSize()`: max.z - min.z, never negative. */
  function ZSize(b: BoundingBox): (s: int)
    ensures s >= 0 && b.min.z + s == b.max.z
  {
    b.max.z - b.min.z
  }

  /** The cell p lies in the box (both corners included). */
  predicate Contains(b: Box, p: Vec3)
  {
    b.min.x <= p.x <= b.max.x && b.min.y <= p.y <= b.max.y && b.min.z <= p.z <= b.max.z
  }

  /** `self.intersects(box)`, with the source's two early tests. */
  predicate Intersects(self: BoundingBox, box: BoundingBox)
  {
    if box.max.x < self.min.x || box.max.y < self.min.y || box.max.z < self.min.z then false
    else !(box.min.x > self.max.x || box.min.y > self.max.y || box.min.z > self.max.z)
  }

  /** Two closed boxes intersect exactly when they share a lattice cell. */
  lemma IntersectsIffSharedCell(a: BoundingBox, b: BoundingBox)
    ensures Intersects(a, b) <==> exists p :: Contains(a, p) && Contains(b, p)
  {
    if Intersects(a, b) {
      var p := Vec3(Max(a.min.x, b.min.x), Max(a.min.y, b.min.y), Max(a.min.z, b.min.z));
      assert Contains(a, p) && Contains(b, p);
    }
  }

  lemma IntersectsSymmetric(a: BoundingBox, b: BoundingBox)
    ensures Intersects(a, b) == Intersects(b, a)
  {
  }

  lemma IntersectsReflexive(a: BoundingBox)
    ensures Intersects(a, a)
  {
  }

  /** Boxes that only touch (a shared face, edge or corner cell) still intersect. */
  lemma TouchingBoxesIntersect(a: BoundingBox, b: BoundingBox, p: Vec3)
    requires Contains(a, p) && Contains(b, p)
    requires p.x == a.max.x && p.x == b.min.x
    ensures Intersects(a, b) && Intersects(b, a)
  {
  }

  /** A gap of at least one unit on any single axis separates two boxes. */
  lemma GapSeparates(a: BoundingBox, b: BoundingBox)
    requires a.max.x < b.min.x || a.max.y < b.min.y || a.max.z < b.min.z
    ensures !Intersects(a, b) && !Intersects(b, a)
  {
  }

  /** `equals`: the corner order given to the constructor does not matter. */
  lemma MakeBoxSymmetric(a: Vec3, b: Vec3)
    ensures MakeBox(a, b) == MakeBox(b, a)
  {
  }

  /** The local cell v lies in the local box lo..hi (both corners included). */
  predicate InLocalBox(lo: Vec3, hi: Vec3, v: Vec3)
  {
    lo.x <= v.x <= hi.x && lo.y <= v.y <= hi.y && lo.z <= v.z <= hi.z
  }

  /**
   * The bounding box a piece reports, `new BoundingBox(transform(lo), transform(hi))`,
   * holds exactly the images of the local cells lo..hi: a quarter turn maps an
   * axis-aligned box onto an axis-aligned box.
   */
  lemma TransformedBox(f: Frame, lo: Vec3, hi: Vec3, p: Vec3)
    requires lo.x <= hi.x && lo.y <= hi.y && lo.z <= hi.z
    ensures Contains(MakeBox(Transform(f, lo), Transform(f, hi)), p)
        <==> InLocalBox(lo, hi, Untransform(f, p))
  {
    var v := Untransform(f, p);
    TransformUntransform(f, p);
    RotateYCases(f.rotation, lo.Sub(f.pivot));
    RotateYCases(f.rotation, hi.Sub(f.pivot));
    RotateYCases(f.rotation, v.Sub(f.pivot));
  }

  /** The same box's sizes: y is kept, x and z swap under an odd number of quarter turns. */
  lemma TransformedBoxSize(f: Frame, lo: Vec3, hi: Vec3)
    requires lo.x <= hi.x && lo.y <= hi.y && lo.z <= hi.z
    ensures var b := MakeBox(Transform(f, lo), Transform(f, hi));
      && YSize(b) == hi.y - lo.y
      && (f.rotation % 2 == 0 ==> XSize(b) == hi.x - lo.x && ZSize(b) == hi.z - lo.z)
      && (f.rotation % 2 == 1 ==> XSize(b) == hi.z - lo.z && ZSize(b) == hi.x - lo.x)
  {
    RotateYCases(f.rotation, lo.Sub(f.pivot));
    RotateYCases(f.rotation, hi.Sub(f.pivot));
  }
}
