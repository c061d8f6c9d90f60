/**
 * `StructurePiece`: the state every piece carries (position, rotation,
 * rotation point), its setters, the local-to-world transform it applies to
 * every block it reads or writes, and the column walk `fillDownwards`.
 */
module StructurePieces {
  import opened Geometry
  import opened Worlds
  import opened WeightedNext
  import opened BoundingBoxes

  /**
   * A successor as `getNextPieces` hands it back: its type, the position and
   * rotation set on it (its rotation point stays at the origin), and whether
   * `randomize()` has been called on it.
   */
  datatype Candidate = Candidate(kind: PieceType, frame: Frame, randomized: bool)

  class StructurePiece {
    var position: Vec3
    var rotation: Quarter
    var rotationPoint: Vec3

    /** A new piece: identity rotation, rotation point at the origin. */
    constructor ()
      ensures position == Origin && rotation == 0 && rotationPoint == Origin
    {
      position, rotation, rotationPoint := Origin, 0, Origin;
    }

    function ToFrame(): Frame
      reads this
    {
      Frame(position, rotation, rotationPoint)
    }

    /** `rotate(x, y, z)`: a turn about the rotation point, which leaves heights alone. */
    function Rotate(x: int, y: int, z: int): (r: Vec3)
      reads this
      ensures r.y == y
      ensures rotation == 0 ==> r == Vec3(x, y, z)
      ensures Vec3(x, y, z) == rotationPoint ==> r == rotationPoint
    {
      RotatePivotFixed(ToFrame());
      Geometry.Rotate(ToFrame(), Vec3(x, y, z))
    }

    /** `transform(x, y, z)`: a one-to-one map of local cells onto world cells. */
    function Transform(x: int, y: int, z: int): (p: Vec3)
      reads this
      ensures p.y == y + position.y
      ensures Untransform(ToFrame(), p) == Vec3(x, y, z)
    {
      UntransformTransform(ToFrame(), Vec3(x, y, z));
      Geometry.Transform(ToFrame(), Vec3(x, y, z))
    }

    /** `getBlockMaterial(xx, yy, zz)`: the material at the world cell of the local cell. */
    function GetBlockMaterial(w: World, xx: int, yy: int, zz: int): Material
      reads this
    {
      Read(w, Transform(xx, yy, zz))
    }

    /**
     * Reading a local cell after `setBlockMaterial` gives the material just
     * written there, and every other local cell reads as before.
     */
    lemma GetAfterSet(w: World, xx: int, yy: int, zz: int, m: Material, a: int, b: int, c: int)
      ensures GetBlockMaterial(SetBlockMaterial(w, xx, yy, zz, m), xx, yy, zz) == m
      ensures (a, b, c) != (xx, yy, zz) ==>
        GetBlockMaterial(SetBlockMaterial(w, xx, yy, zz, m), a, b, c) == GetBlockMaterial(w, a, b, c)
    {
      var q := Transform(a, b, c);
      assert Untransform(ToFrame(), q) == Vec3(a, b, c);
    }

    /**
     * `setBlockMaterial(xx, yy, zz, material)`: the world cell of the local
     * cell gets the material, no other cell changes.
     */
    function SetBlockMaterial(w: World, xx: int, yy: int, zz: int, m: Material): (w': World)
      reads this
      ensures forall q :: Read(w', q) == if Untransform(ToFrame(), q) == Vec3(xx, yy, zz) then m else Read(w, q)
    {
      WriteCell(ToFrame(), w, Vec3(xx, yy, zz), m);
      w[Transform(xx, yy, zz) := m]
    }

    /**
     * `fillDownwards(xx, yy, zz, limit, material)`: replace air or liquid
     * going down from the local cell, at most `limit` cells. The counter is an
     * unbounded integer here; the source's `short` counter is discussed with
     * ShortCounterAfter below.
     */
    method FillDownwards(w: World, xx: int, yy: int, zz: int, limit: int, m: Material) returns (w': World)
      ensures w' == FillDown(w, Transform(xx, yy, zz), limit, m)
    {
      var counter := 0;
      var y := yy;
      w' := w;
      while Replaceable(Read(w', Transform(xx, y, zz))) && counter < limit
        invariant 0 <= counter
        invariant FillDown(w', Transform(xx, y, zz), limit - counter, m) == FillDown(w, Transform(xx, yy, zz), limit, m)
        decreases limit - counter
      {
        TransformDown(ToFrame(), Vec3(xx, y, zz));
        counter := counter + 1;
        w' := w'[Transform(xx, y, zz) := m];
        y := y - 1;
      }
    }

    /**
     * `fillDownwards` at one more local column of a support loop: the columns
     * the loop has filled grow by that column.
     */
    method FillColumn(ghost w0: World, w: World, ghost f: Frame, ghost cols: set<(int, int)>, ghost top: int,
                      xx: int, yy: int, zz: int, limit: int, m: Material) returns (w': World)
      requires f == ToFrame() && top == f.position.y + yy
      requires ColumnsFilled(w0, w, f, cols, top, limit, m)
      requires (xx, zz) !in cols
      ensures ColumnsFilled(w0, w', f, cols + {(xx, zz)}, top, limit, m)
    {
      ColumnsFilledStep(w0, w, f, cols, xx, yy, zz, limit, m);
      w' := FillDownwards(w, xx, yy, zz, limit, m);
    }

    /** `setPosition`: the position is the one given, nothing else changes. */
    method SetPosition(p: Vec3)
      modifies this
      ensures position == p
      ensures rotation == old(rotation) && rotationPoint == old(rotationPoint)
    {
      position := p;
    }

    /** `offsetPosition(x, y, z)`: the position moves by exactly (x, y, z). */
    method OffsetPosition(x: int, y: int, z: int)
      modifies this
      ensures position == old(position).Add(Vec3(x, y, z))
      ensures rotation == old(rotation) && rotationPoint == old(rotationPoint)
    {
      position := position.Add(Vec3(x, y, z));
    }

    /** `setRotation`: the rotation is the one given, nothing else changes. */
    method SetRotation(q: Quarter)
      modifies this
      ensures rotation == q
      ensures position == old(position) && rotationPoint == old(rotationPoint)
    {
      rotation := q;
    }

    /** `setRotationPoint`: the rotation point is the one given, nothing else changes. */
    method SetRotationPoint(p: Vec3)
      modifies this
      ensures rotationPoint == p
      ensures position == old(position) && rotation == old(rotation)
    {
      rotationPoint := p;
    }
  }

  /** Writing the image of local cell v changes exactly the world cell whose local cell is v. */
  lemma WriteCell(f: Frame, w: World, v: Vec3, m: Material)
    ensures forall q :: Read(w[Geometry.Transform(f, v) := m], q) == if Untransform(f, q) == v then m else Read(w, q)
  {
    forall q
      ensures q == Geometry.Transform(f, v) <==> Untransform(f, q) == v
    {
      UntransformTransform(f, v);
      TransformUntransform(f, q);
    }
  }

  /**
   * How many cells `fillDownwards` replaces from world cell p: the length of
   * the run of air or liquid starting at p and going down, cut off at limit.
   */
  function FillDepth(w: World, p: Vec3, limit: int): (n: nat)
    ensures n <= limit || n == 0
    decreases if limit < 0 then 0 else limit
  {
    if limit <= 0 || !Replaceable(Read(w, p)) then 0
    else 1 + FillDepth(w, p.Add(Down), limit - 1)
  }

  /** The world after `fillDownwards` from world cell p. */
  function FillDown(w: World, p: Vec3, limit: int, m: Material): World
    decreases if limit < 0 then 0 else limit
  {
    if limit <= 0 || !Replaceable(Read(w, p)) then w
    else FillDown(w[p := m], p.Add(Down), limit - 1, m)
  }

  /** The cell q lies in the n cells of p's column from p downwards. */
  predicate InRun(p: Vec3, n: int, q: Vec3)
  {
    q.x == p.x && q.z == p.z && p.y - n < q.y <= p.y
  }

  /**
   * The walk replaced only air or liquid, and it stopped either after limit
   * cells or at the first cell that is neither (so a solid start cell stops it
   * at once).
   */
  lemma {:induction false} FillDepthRun(w: World, p: Vec3, limit: int)
    ensures var n := FillDepth(w, p, limit);
      && (forall q :: InRun(p, n, q) ==> Replaceable(Read(w, q)))
      && (n == limit || (n == 0 && limit <= 0) || !Replaceable(Read(w, Vec3(p.x, p.y - n, p.z))))
    decreases if limit < 0 then 0 else limit
  {
    if limit > 0 && Replaceable(Read(w, p)) {
      FillDepthRun(w, p.Add(Down), limit - 1);
      assert Vec3(p.x, p.y - FillDepth(w, p, limit), p.z)
          == Vec3(p.x, p.Add(Down).y - FillDepth(w, p.Add(Down), limit - 1), p.z);
    }
  }

  /** The walk from p reads only its own column at and below p. */
  lemma {:induction false} FillDepthFrame(w1: World, w2: World, p: Vec3, limit: int)
    requires forall q: Vec3 :: q.x == p.x && q.z == p.z && q.y <= p.y ==> Read(w1, q) == Read(w2, q)
    ensures FillDepth(w1, p, limit) == FillDepth(w2, p, limit)
    decreases if limit < 0 then 0 else limit
  {
    if limit > 0 {
      FillDepthFrame(w1, w2, p.Add(Down), limit - 1);
    }
  }

  /**
   * `fillDownwards` writes the material into exactly the FillDepth cells of
   * p's column from p down, and changes no other cell.
   */
  lemma {:induction false} FillDownEffect(w: World, p: Vec3, limit: int, m: Material, q: Vec3)
    ensures Read(FillDown(w, p, limit, m), q) == if InRun(p, FillDepth(w, p, limit), q) then m else Read(w, q)
    decreases if limit < 0 then 0 else limit
  {
    if limit > 0 && Replaceable(Read(w, p)) {
      var w1 := w[p := m];
      FillDownEffect(w1, p.Add(Down), limit - 1, m, q);
      FillDepthFrame(w1, w, p.Add(Down), limit - 1);
    }
  }

  /** A walk that starts at a cell that is neither air nor liquid writes nothing. */
  lemma FillDownSolidStart(w: World, p: Vec3, limit: int, m: Material)
    requires !Replaceable(Read(w, p))
    ensures FillDown(w, p, limit, m) == w && FillDepth(w, p, limit) == 0
  {
  }

  /**
   * The source's counter is a `short`: `counter++` wraps from 32767 to
   * -32768. ShortCounterAfter(n) is its value after n replaced cells.
   */
  function ShortIncrement(c: int): int
  {
    if c == 32767 then -32768 else c + 1
  }

  function ShortCounterAfter(n: nat): int
  {
    if n == 0 then 0 else ShortIncrement(ShortCounterAfter(n - 1))
  }

  lemma {:induction false} ShortCounterInRange(n: nat)
    ensures -32768 <= ShortCounterAfter(n) <= 32767
  {
    if n > 0 {
      ShortCounterInRange(n - 1);
    }
  }

  /**
   * As written, with a limit of 32768 or more the test `counter++ < limit`
   * holds after any number of replaced cells, so the limit never ends the
   * walk; FillDepth (an unbounded counter) stops after limit cells.
   */
  lemma AsWrittenLimitNeverStops(limit: int, n: nat)
    requires limit >= 32768
    ensures ShortCounterAfter(n) < limit
  {
    ShortCounterInRange(n);
  }

  /**
   * The frame `getNextPieces` gives a successor: position
   * `position.add(rotate(anchor))`, rotation `Compose(delta, rotation)`, and
   * the rotation point of a new piece.
   */
  function SuccessorAt(parent: Frame, anchor: Vec3, delta: Quarter): Frame
  {
    Frame(Transform(parent, anchor), Compose(delta, parent.rotation), Origin)
  }

  /** The successor's local cell u is the parent's local cell anchor + RotateY(delta, u). */
  lemma SuccessorCell(parent: Frame, anchor: Vec3, delta: Quarter, u: Vec3)
    ensures Untransform(parent, Transform(SuccessorAt(parent, anchor, delta), u)) == anchor.Add(RotateY(delta, u))
  {
    SuccessorFrame(parent, anchor, delta, u);
    UntransformTransform(parent, anchor.Add(RotateY(delta, u)));
  }

  /**
   * The successor at frame next grows away from a piece with bounding box b:
   * none of its cells at local depth u.z >= 0 lies in b.
   */
  ghost predicate GrowsAway(b: Box, next: Frame)
  {
    forall u: Vec3 {:trigger Transform(next, u)} :: u.z >= 0 ==> !Contains(b, Transform(next, u))
  }

  /**
   * The anchor lies one or more cells past a face of the local box lo..hi and
   * the successor is turned so that its local +z points away from that face.
   */
  predicate ExitsThroughFace(lo: Vec3, hi: Vec3, anchor: Vec3, delta: Quarter)
  {
    || (delta == 0 && anchor.z > hi.z)
    || (delta == 1 && anchor.x > hi.x)
    || (delta == 2 && anchor.z < lo.z)
    || (delta == 3 && anchor.x < lo.x)
  }

  /** Such a successor grows away from the piece whose bounding box spans lo..hi. */
  lemma GrowsAwayThroughFace(f: Frame, lo: Vec3, hi: Vec3, anchor: Vec3, delta: Quarter)
    requires lo.x <= hi.x && lo.y <= hi.y && lo.z <= hi.z
    requires ExitsThroughFace(lo, hi, anchor, delta)
    ensures GrowsAway(MakeBox(Transform(f, lo), Transform(f, hi)), SuccessorAt(f, anchor, delta))
  {
    forall u: Vec3 | u.z >= 0
      ensures !Contains(MakeBox(Transform(f, lo), Transform(f, hi)), Transform(SuccessorAt(f, anchor, delta), u))
    {
      var p := Transform(SuccessorAt(f, anchor, delta), u);
      SuccessorCell(f, anchor, delta, u);
      TransformedBox(f, lo, hi, p);
      RotateYCases(delta, u);
    }
  }

  /** The local column of world cell q. */
  function LocalColumn(f: Frame, q: Vec3): (int, int)
  {
    var l := Untransform(f, q);
    (l.x, l.z)
  }

  /** What a support loop leaves at world cell q of a column it filled from world height top. */
  function FilledCell(w0: World, top: int, limit: int, m: Material, q: Vec3): Material
  {
    var p := Vec3(q.x, top, q.z);
    if InRun(p, FillDepth(w0, p, limit), q) then m else Read(w0, q)
  }

  /**
   * w is w0 after `fillDownwards(x, y, z, limit, m)` for every local column
   * (x, z) in cols, in any order, where the local height y lies at world
   * height top: each of those columns is filled as it would be in w0 alone,
   * and every other cell is as in w0.
   */
  ghost predicate ColumnsFilled(w0: World, w: World, f: Frame, cols: set<(int, int)>, top: int, limit: int, m: Material)
  {
    forall q {:trigger Read(w, q), LocalColumn(f, q)} ::
      Read(w, q) == if LocalColumn(f, q) in cols then FilledCell(w0, top, limit, m, q) else Read(w0, q)
  }

  lemma ColumnsFilledNone(w0: World, f: Frame, top: int, limit: int, m: Material)
    ensures ColumnsFilled(w0, w0, f, {}, top, limit, m)
  {
  }

  /** The same columns, however the set of them is written. */
  lemma ColumnsFilledSame(w0: World, w: World, f: Frame, cols: set<(int, int)>, cols': set<(int, int)>,
                          top: int, limit: int, m: Material)
    requires cols == cols' && ColumnsFilled(w0, w, f, cols, top, limit, m)
    ensures ColumnsFilled(w0, w, f, cols', top, limit, m)
  {
  }

  /** Filling one more local column, not filled before, extends ColumnsFilled by that column. */
  lemma ColumnsFilledStep(w0: World, w: World, f: Frame, cols: set<(int, int)>, x: int, y: int, z: int,
                          limit: int, m: Material)
    requires ColumnsFilled(w0, w, f, cols, Transform(f, Vec3(x, y, z)).y, limit, m)
    requires (x, z) !in cols
    ensures ColumnsFilled(w0, FillDown(w, Transform(f, Vec3(x, y, z)), limit, m), f, cols + {(x, z)},
                          Transform(f, Vec3(x, y, z)).y, limit, m)
  {
    var p := Transform(f, Vec3(x, y, z));
    forall q: Vec3 | q.x == p.x && q.z == p.z && q.y <= p.y
      ensures Read(w, q) == Read(w0, q)
    {
      SameColumn(f, x, y, z, q);
      assert LocalColumn(f, q) == (x, z);
    }
    FillDepthFrame(w, w0, p, limit);
    forall q
      ensures Read(FillDown(w, p, limit, m), q)
        == if LocalColumn(f, q) in cols + {(x, z)} then FilledCell(w0, p.y, limit, m, q) else Read(w0, q)
    {
      FillDownEffect(w, p, limit, m, q);
      SameColumn(f, x, y, z, q);
    }
  }

  /**
   * Whatever a support loop changed lies in one of its columns, at most limit
   * cells down from top, and holds the fill material.
   */
  lemma ColumnsFilledBounds(w0: World, w: World, f: Frame, cols: set<(int, int)>, top: int, limit: int,
                            m: Material, q: Vec3)
    requires ColumnsFilled(w0, w, f, cols, top, limit, m)
    requires Read(w, q) != Read(w0, q)
    ensures LocalColumn(f, q) in cols && top - limit < q.y <= top && Read(w, q) == m
  {
  }
}
