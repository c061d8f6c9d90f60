/**
 * Integer geometry of structure pieces: lattice vectors, quarter-turn yaw
 * rotations about the Y axis, and the local-to-world transform of a piece
 * (subtract the rotation point, rotate, add the rotation point back, then add
 * the piece's position).
 */
module Geometry {

  datatype Vec3 = Vec3(x: int, y: int, z: int) {
    function Add(o: Vec3): Vec3 { Vec3(x + o.x, y + o.y, z + o.z) }
    function Sub(o: Vec3): Vec3 { Vec3(x - o.x, y - o.y, z - o.z) }
  }

  const Origin := Vec3(0, 0, 0)
  const Down := Vec3(0, -1, 0)

  /** A yaw rotation by k quarter turns (k * 90 degrees) about the Y axis. */
  type Quarter = k: int | 0 <= k < 4

  /** One quarter turn (+90 degrees) about the Y axis: (x, z) goes to (z, -x), y is kept. */
  function Turn(v: Vec3): Vec3
  {
    Vec3(v.z, v.y, -v.x)
  }

  /** The Y rotation by k quarter turns: k single quarter turns one after the other. */
  function RotateY(k: Quarter, v: Vec3): (r: Vec3)
    ensures r.y == v.y
    ensures k == 0 ==> r == v
  {
    if k == 0 then v else RotateY(k - 1, Turn(v))
  }

  /** The integer rotation matrix of each quarter count, written out. */
  lemma RotateYCases(k: Quarter, v: Vec3)
    ensures RotateY(k, v) ==
      if k == 0 then v
      else if k == 1 then Vec3(v.z, v.y, -v.x)
      else if k == 2 then Vec3(-v.x, v.y, -v.z)
      else Vec3(-v.z, v.y, v.x)
  {
    if k >= 1 {
      assert RotateY(k, v) == RotateY(k - 1, Turn(v));
      if k >= 2 {
        assert RotateY(k - 1, Turn(v)) == RotateY(k - 2, Turn(Turn(v)));
        if k == 3 {
          assert RotateY(1, Turn(Turn(v))) == RotateY(0, Turn(Turn(Turn(v))));
        }
      }
    }
  }

  /** `fromAngleDegAxis(90 * delta, 0, 1, 0).mul(rotation)`: the delta is applied after the rotation. */
  function Compose(delta: Quarter, rotation: Quarter): (k: Quarter)
    ensures k == (delta + rotation) % 4
  {
    if delta + rotation < 4 then delta + rotation else delta + rotation - 4
  }

  /** The quarter count of a yaw angle that is a multiple of 90 degrees (negative angles included). */
  function FromYawDegrees(deg: int): (k: Quarter)
    requires deg % 90 == 0
    ensures (90 * k - deg) % 360 == 0
  {
    (deg / 90) % 4
  }

  /** The three yaw angles that successors are turned by: +90, -90 and 180 degrees. */
  lemma YawQuarters()
    ensures FromYawDegrees(90) == 1 && FromYawDegrees(-90) == 3 && FromYawDegrees(180) == 2
  {
  }

  function Inverse(k: Quarter): Quarter
  {
    if k == 0 then 0 else 4 - k
  }

  /** Composition of rotations is applying them one after the other. */
  lemma RotateCompose(delta: Quarter, k: Quarter, v: Vec3)
    ensures RotateY(Compose(delta, k), v) == RotateY(delta, RotateY(k, v))
  {
    RotateYCases(Compose(delta, k), v);
    RotateYCases(k, v);
    RotateYCases(delta, RotateY(k, v));
  }

  lemma RotateAdd(k: Quarter, a: Vec3, b: Vec3)
    ensures RotateY(k, a.Add(b)) == RotateY(k, a).Add(RotateY(k, b))
  {
    RotateYCases(k, a.Add(b));
    RotateYCases(k, a);
    RotateYCases(k, b);
  }

  lemma RotateInverse(k: Quarter, v: Vec3)
    ensures RotateY(Inverse(k), RotateY(k, v)) == v
    ensures RotateY(k, RotateY(Inverse(k), v)) == v
  {
    RotateYCases(k, v);
    RotateYCases(Inverse(k), RotateY(k, v));
    RotateYCases(Inverse(k), v);
    RotateYCases(k, RotateY(Inverse(k), v));
  }

  /** Position, yaw and rotation point of a piece. */
  datatype Frame = Frame(position: Vec3, rotation: Quarter, pivot: Vec3)

  /** `rotate(x, y, z)`: rotation about the rotation point. */
  function Rotate(f: Frame, v: Vec3): (r: Vec3)
    ensures r.y == v.y
    ensures f.rotation == 0 ==> r == v
  {
    RotateY(f.rotation, v.Sub(f.pivot)).Add(f.pivot)
  }

  /**
   * `transform(x, y, z)`: rotation about the rotation point followed by the
   * translation to the piece's position; it keeps heights apart from the
   * shift by the position.
   */
  function Transform(f: Frame, v: Vec3): (r: Vec3)
    ensures r.y == v.y + f.position.y
  {
    Rotate(f, v).Add(f.position)
  }

  /** The local cell that a world cell comes from. */
  function Untransform(f: Frame, p: Vec3): (v: Vec3)
    ensures Transform(f, v) == p
    ensures v.y == p.y - f.position.y
  {
    RotateInverse(f.rotation, p.Sub(f.position).Sub(f.pivot));
    RotateY(Inverse(f.rotation), p.Sub(f.position).Sub(f.pivot)).Add(f.pivot)
  }

  /** Every world cell is the image of exactly one local cell. */
  lemma TransformUntransform(f: Frame, p: Vec3)
    ensures Transform(f, Untransform(f, p)) == p
  {
    RotateInverse(f.rotation, p.Sub(f.position).Sub(f.pivot));
  }

  /** Untransform undoes Transform, so distinct local cells never land on the same world cell. */
  lemma UntransformTransform(f: Frame, v: Vec3)
    ensures Untransform(f, Transform(f, v)) == v
  {
    RotateInverse(f.rotation, v.Sub(f.pivot));
  }

  /**
   * A world cell lies in the world column of local column (x, z) exactly when
   * it comes from a local cell of that column.
   */
  lemma SameColumn(f: Frame, x: int, y: int, z: int, q: Vec3)
    ensures var c := Transform(f, Vec3(x, y, z));
      (q.x == c.x && q.z == c.z) <==> (Untransform(f, q).x == x && Untransform(f, q).z == z)
  {
    RotateYCases(f.rotation, Vec3(x, y, z).Sub(f.pivot));
    RotateYCases(Inverse(f.rotation), q.Sub(f.position).Sub(f.pivot));
  }

  /**
   * Moving a world cell up or down its column keeps its local column and moves
   * its local height with it.
   */
  lemma UntransformLift(f: Frame, q: Vec3, y: int)
    ensures Untransform(f, Vec3(q.x, y, q.z))
         == Vec3(Untransform(f, q).x, y - f.position.y, Untransform(f, q).z)
  {
    RotateYCases(Inverse(f.rotation), q.Sub(f.position).Sub(f.pivot));
    RotateYCases(Inverse(f.rotation), Vec3(q.x, y, q.z).Sub(f.position).Sub(f.pivot));
  }

  /** `rotate` leaves the rotation point where it is. */
  lemma RotatePivotFixed(f: Frame)
    ensures Rotate(f, f.pivot) == f.pivot
  {
    RotateYCases(f.rotation, f.pivot.Sub(f.pivot));
  }

  /** Under the identity rotation the transform is a pure translation, whatever the rotation point. */
  lemma IdentityTransform(f: Frame, v: Vec3)
    requires f.rotation == 0
    ensures Transform(f, v) == v.Add(f.position)
  {
  }

  /** One step down in local space is one step down in the world: yaw never tilts the Y axis. */
  lemma TransformDown(f: Frame, v: Vec3)
    ensures Transform(f, v.Add(Down)) == Transform(f, v).Add(Down)
  {
    RotateYCases(f.rotation, v.Add(Down).Sub(f.pivot));
    RotateYCases(f.rotation, v.Sub(f.pivot));
  }

  /** Moving a local cell by e moves its world cell by e turned with the piece. */
  lemma TransformShift(f: Frame, a: Vec3, e: Vec3)
    ensures Transform(f, a.Add(e)) == RotateY(f.rotation, e).Add(Transform(f, a))
  {
    RotateAdd(f.rotation, a.Sub(f.pivot), e);
    assert a.Add(e).Sub(f.pivot) == a.Sub(f.pivot).Add(e);
  }

  /** With the rotation point at the origin the transform is a rotation followed by the translation. */
  lemma TransformAtOrigin(f: Frame, u: Vec3)
    requires f.pivot == Origin
    ensures Transform(f, u) == RotateY(f.rotation, u).Add(f.position)
  {
    assert u.Sub(Origin) == u;
  }

  /**
   * A successor placed at `position.add(rotate(anchor))` with rotation
   * `Compose(delta, rotation)` has as its local space the parent's local space
   * moved to the anchor and turned by delta: its cell u is the parent's cell
   * anchor + RotateY(delta, u).
   */
  lemma SuccessorFrame(parent: Frame, anchor: Vec3, delta: Quarter, u: Vec3)
    ensures Transform(Frame(Transform(parent, anchor), Compose(delta, parent.rotation), Origin), u)
         == Transform(parent, anchor.Add(RotateY(delta, u)))
  {
    var k := parent.rotation;
    TransformAtOrigin(Frame(Transform(parent, anchor), Compose(delta, k), Origin), u);
    assert Compose(delta, k) == Compose(k, delta);
    RotateCompose(k, delta, u);
    TransformShift(parent, anchor, RotateY(delta, u));
  }
}
