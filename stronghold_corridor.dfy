/**
 * `StrongholdCorridor`: a straight stone-brick tube, five cells wide and high
 * and `length` cells long, that leads on to one weighted successor and, at the
 * start of a stronghold, also to the portal room behind it.
 */
module StrongholdCorridors {
  import opened Geometry
  import opened Worlds
  import opened WeightedNext
  import opened StructurePieces
  import opened BoundingBoxes

  /** The source's `byte`. */
  type Byte = b: int | -128 <= b < 128

  /** `DEFAULT_NEXT`: the successor types a corridor draws from, with their weights. */
  const DefaultNext: Table := [
    Entry(StrongholdLargeIntersection, 1),
    Entry(StrongholdIntersection, 1),
    Entry(StrongholdRoom, 1),
    Entry(StrongholdSpiralStaircase, 1),
    Entry(StrongholdPrison, 2),
    Entry(StrongholdTurn, 2),
    Entry(StrongholdStaircase, 2)
  ]

  /**
   * The material `place()` leaves at local cell v of the tube: a 3 by 3
   * hollow of air inside a floor, ceiling and two walls of stone brick.
   */
  function TubeCell(v: Vec3): Material
  {
    if 1 <= v.x <= 3 && 1 <= v.y <= 3 then Air else StoneBrick
  }

  /** The local cells of a tube of the given length (none when the length is not positive). */
  predicate InTube(len: int, v: Vec3)
  {
    InLocalBox(Origin, Vec3(4, 4, len - 1), v)
  }

  /** The position of local cell v in the order `place()` writes the tube: slice by slice, layer by layer, x within a layer. */
  function TubeIndex(v: Vec3): int
  {
    25 * v.z + 5 * v.y + v.x
  }

  /** The local cells of an endless tube: five by five slices at z >= 0. */
  predicate InSlices(v: Vec3)
  {
    0 <= v.x <= 4 && 0 <= v.y <= 4 && 0 <= v.z
  }

  /** Part way through `place()`: the first n cells in writing order are done and no other cell has changed. */
  ghost predicate TubeUpTo(w0: World, w: World, f: Frame, n: int)
  {
    forall q :: Read(w, q) ==
      var v := Untransform(f, q);
      if InSlices(v) && TubeIndex(v) < n then TubeCell(v) else Read(w0, q)
  }

  /** Writing order is a numbering: no two cells of the slices share an index. */
  lemma TubeIndexInjective(u: Vec3, v: Vec3)
    requires InSlices(u) && InSlices(v) && TubeIndex(u) == TubeIndex(v)
    ensures u == v
  {
    assert u.z == v.z;
    assert u.y == v.y;
  }

  /** One `setBlockMaterial` of the cell next in writing order, with its tube material, extends the done prefix by one. */
  lemma TubeWrite(p: StructurePiece, w0: World, w: World, x: int, y: int, z: int, m: Material)
    requires InSlices(Vec3(x, y, z)) && m == TubeCell(Vec3(x, y, z))
    requires TubeUpTo(w0, w, p.ToFrame(), TubeIndex(Vec3(x, y, z)))
    ensures TubeUpTo(w0, p.SetBlockMaterial(w, x, y, z, m), p.ToFrame(), TubeIndex(Vec3(x, y, z)) + 1)
  {
    var f := p.ToFrame();
    var w' := p.SetBlockMaterial(w, x, y, z, m);
    forall q
      ensures Read(w', q) ==
        var v := Untransform(f, q);
        if InSlices(v) && TubeIndex(v) < TubeIndex(Vec3(x, y, z)) + 1 then TubeCell(v) else Read(w0, q)
    {
      var v := Untransform(f, q);
      if InSlices(v) && TubeIndex(v) == TubeIndex(Vec3(x, y, z)) {
        TubeIndexInjective(v, Vec3(x, y, z));
      }
    }
  }

  /** The five writes of one layer of one slice, x from 0 to 4, each with its tube material. */
  lemma TubeRow(p: StructurePiece, w0: World, w: World, y: int, z: int,
                m0: Material, m1: Material, m2: Material, m3: Material, m4: Material)
    requires 0 <= y <= 4 && 0 <= z
    requires m0 == TubeCell(Vec3(0, y, z)) && m1 == TubeCell(Vec3(1, y, z)) && m2 == TubeCell(Vec3(2, y, z))
    requires m3 == TubeCell(Vec3(3, y, z)) && m4 == TubeCell(Vec3(4, y, z))
    requires TubeUpTo(w0, w, p.ToFrame(), 25 * z + 5 * y)
    ensures TubeUpTo(w0,
      p.SetBlockMaterial(p.SetBlockMaterial(p.SetBlockMaterial(p.SetBlockMaterial(
        p.SetBlockMaterial(w, 0, y, z, m0), 1, y, z, m1), 2, y, z, m2), 3, y, z, m3), 4, y, z, m4),
      p.ToFrame(), 25 * z + 5 * y + 5)
  {
    var w1 := p.SetBlockMaterial(w, 0, y, z, m0);
    TubeWrite(p, w0, w, 0, y, z, m0);
    var w2 := p.SetBlockMaterial(w1, 1, y, z, m1);
    TubeWrite(p, w0, w1, 1, y, z, m1);
    var w3 := p.SetBlockMaterial(w2, 2, y, z, m2);
    TubeWrite(p, w0, w2, 2, y, z, m2);
    var w4 := p.SetBlockMaterial(w3, 3, y, z, m3);
    TubeWrite(p, w0, w3, 3, y, z, m3);
    TubeWrite(p, w0, w4, 4, y, z, m4);
  }

  /** Once every slice below len is written, the tube of that length is complete. */
  lemma TubeDone(w0: World, w: World, f: Frame, len: int)
    requires 0 <= len && TubeUpTo(w0, w, f, 25 * len)
    ensures Tube(w0, w, f, len)
  {
    forall q
      ensures Read(w, q) ==
        var v := Untransform(f, q);
        if InTube(len, v) then TubeCell(v) else Read(w0, q)
    {
      var v := Untransform(f, q);
      assert InSlices(v) && TubeIndex(v) < 25 * len <==> InTube(len, v);
    }
  }

  /** w is w0 with the tube of the given length built at frame f, and nothing else changed. */
  ghost predicate Tube(w0: World, w: World, f: Frame, len: int)
  {
    forall q :: Read(w, q) ==
      var v := Untransform(f, q);
      if InTube(len, v) then TubeCell(v) else Read(w0, q)
  }

  /** Unmoved and unturned, the box of local cells lo..hi is lo..hi itself. */
  lemma UnmovedBox(f: Frame, lo: Vec3, hi: Vec3)
    requires f == Frame(Origin, 0, Origin) && Ordered(Box(lo, hi))
    ensures MakeBox(Transform(f, lo), Transform(f, hi)) == Box(lo, hi)
  {
    IdentityTransform(f, lo);
    IdentityTransform(f, hi);
  }

  class StrongholdCorridor {
    const piece: StructurePiece
    var startOfStronghold: bool
    var length: Byte

    /** A new corridor: four cells long, not the start of a stronghold. */
    constructor ()
      ensures fresh(piece) && piece.position == Origin && piece.rotation == 0 && piece.rotationPoint == Origin
      ensures !startOfStronghold && length == 4
    {
      piece := new StructurePiece();
      startOfStronghold := false;
      length := 4;
    }

    /** `canPlace()`: no liquid in the local box (-1, -1, -1)..(5, 5, length + 1), one cell round the tube. */
    predicate CanPlace(w: World)
      reads this, piece
    {
      forall x, y, z :: -1 <= x <= 5 && -1 <= y <= 5 && -1 <= z <= length + 1 ==>
        !IsLiquid(Read(w, piece.Transform(x, y, z)))
    }

    /** The same test on the world box that the two corners of the local box span. */
    lemma CanPlaceInWorld(w: World)
      requires length >= -2
      ensures var box := MakeBox(piece.Transform(-1, -1, -1), piece.Transform(5, 5, length + 1));
        CanPlace(w) <==> forall p :: Contains(box, p) ==> !IsLiquid(Read(w, p))
    {
      var f := piece.ToFrame();
      var lo, hi := Vec3(-1, -1, -1), Vec3(5, 5, length + 1);
      var box := MakeBox(Transform(f, lo), Transform(f, hi));
      if CanPlace(w) {
        forall p | Contains(box, p)
          ensures !IsLiquid(Read(w, p))
        {
          TransformedBox(f, lo, hi, p);
          TransformUntransform(f, p);
          var v := Untransform(f, p);
          assert piece.Transform(v.x, v.y, v.z) == p;
        }
      }
      if forall p :: Contains(box, p) ==> !IsLiquid(Read(w, p)) {
        forall x, y, z | -1 <= x <= 5 && -1 <= y <= 5 && -1 <= z <= length + 1
          ensures !IsLiquid(Read(w, piece.Transform(x, y, z)))
        {
          TransformedBox(f, lo, hi, Transform(f, Vec3(x, y, z)));
          UntransformTransform(f, Vec3(x, y, z));
        }
      }
    }

    /** `place()`: the tube, slice by slice along z, written as the source writes it. */
    method Place(w: World) returns (w': World)
      ensures Tube(w, w', piece.ToFrame(), length)
    {
      ghost var f := piece.ToFrame();
      w' := w;
      var i := 0;
      while i < length
        invariant 0 <= i <= if length < 0 then 0 else length
        invariant TubeUpTo(w, w', f, 25 * i)
      {
        TubeRow(piece, w, w', 0, i, StoneBrick, StoneBrick, StoneBrick, StoneBrick, StoneBrick);
        w' := piece.SetBlockMaterial(w', 0, 0, i, StoneBrick);
        w' := piece.SetBlockMaterial(w', 1, 0, i, StoneBrick);
        w' := piece.SetBlockMaterial(w', 2, 0, i, StoneBrick);
        w' := piece.SetBlockMaterial(w', 3, 0, i, StoneBrick);
        w' := piece.SetBlockMaterial(w', 4, 0, i, StoneBrick);
        var ii := 1;
        while ii <= 3
          invariant 1 <= ii <= 4
          invariant TubeUpTo(w, w', f, 25 * i + 5 * ii)
        {
          TubeRow(piece, w, w', ii, i, StoneBrick, Air, Air, Air, StoneBrick);
          w' := piece.SetBlockMaterial(w', 0, ii, i, StoneBrick);
          w' := piece.SetBlockMaterial(w', 1, ii, i, Air);
          w' := piece.SetBlockMaterial(w', 2, ii, i, Air);
          w' := piece.SetBlockMaterial(w', 3, ii, i, Air);
          w' := piece.SetBlockMaterial(w', 4, ii, i, StoneBrick);
          ii := ii + 1;
        }
        TubeRow(piece, w, w', 4, i, StoneBrick, StoneBrick, StoneBrick, StoneBrick, StoneBrick);
        w' := piece.SetBlockMaterial(w', 0, 4, i, StoneBrick);
        w' := piece.SetBlockMaterial(w', 1, 4, i, StoneBrick);
        w' := piece.SetBlockMaterial(w', 2, 4, i, StoneBrick);
        w' := piece.SetBlockMaterial(w', 3, 4, i, StoneBrick);
        w' := piece.SetBlockMaterial(w', 4, 4, i, StoneBrick);
        i := i + 1;
      }
      if length >= 0 {
        TubeDone(w, w', f, length);
      }
    }

    /** `randomize()`, given the draw `nextInt(5)`: the length becomes 4 to 8. */
    method Randomize(draw: int)
      requires 0 <= draw < 5
      modifies this
      ensures length == draw + 4 && 4 <= length <= 8
      ensures startOfStronghold == old(startOfStronghold)
    {
      length := draw + 4;
    }

    /** `setLength`. */
    method SetLength(l: Byte)
      modifies this
      ensures length == l && startOfStronghold == old(startOfStronghold)
    {
      length := l;
    }

    /** `setStartOfStronghold`. */
    method SetStartOfStronghold(b: bool)
      modifies this
      ensures startOfStronghold == b && length == old(length)
    {
      startOfStronghold := b;
    }

    /**
     * `getBoundingBox()`: the box of transform(0, 0, 0) and transform(4, 4,
     * length - 1).
     */
    function GetBoundingBox(): (b: BoundingBox)
      reads this, piece
      ensures b.min.y == piece.position.y && YSize(b) == 4
    {
      MakeBox(piece.Transform(0, 0, 0), piece.Transform(4, 4, length - 1))
    }

    /**
     * The box is five cells across and high and length cells long, turned
     * with the piece: x and z swap under an odd number of quarter turns.
     */
    lemma BoundingBoxSize()
      requires length >= 1
      ensures YSize(GetBoundingBox()) == 4
      ensures piece.rotation % 2 == 0 ==> XSize(GetBoundingBox()) == 4 && ZSize(GetBoundingBox()) == length - 1
      ensures piece.rotation % 2 == 1 ==> XSize(GetBoundingBox()) == length - 1 && ZSize(GetBoundingBox()) == 4
    {
      TransformedBoxSize(piece.ToFrame(), Origin, Vec3(4, 4, length - 1));
    }

    /** The bounding box holds exactly the cells of the tube. */
    lemma BoundingBoxIsTube(p: Vec3)
      requires length >= 1
      ensures Contains(GetBoundingBox(), p) <==> InTube(length, Untransform(piece.ToFrame(), p))
    {
      TransformedBox(piece.ToFrame(), Origin, Vec3(4, 4, length - 1), p);
    }

    /** A new, unmoved corridor of the default length spans (0, 0, 0)..(4, 4, 3). */
    lemma NewCorridorBox()
      requires piece.ToFrame() == Frame(Origin, 0, Origin) && length == 4
      ensures GetBoundingBox() == Box(Origin, Vec3(4, 4, 3))
    {
      UnmovedBox(piece.ToFrame(), Origin, Vec3(4, 4, 3));
    }

    /**
     * What `place()` leaves: every local cell of the tube holds its tube
     * material, and no cell outside the bounding box has changed.
     */
    lemma PlacedTube(w0: World, w: World)
      requires Tube(w0, w, piece.ToFrame(), length)
      ensures forall v :: InTube(length, v) ==> Read(w, Transform(piece.ToFrame(), v)) == TubeCell(v)
      ensures forall p :: !Contains(GetBoundingBox(), p) ==> Read(w, p) == Read(w0, p)
    {
      var f := piece.ToFrame();
      forall v | InTube(length, v)
        ensures Read(w, Transform(f, v)) == TubeCell(v)
      {
        UntransformTransform(f, v);
      }
      forall p | !Contains(GetBoundingBox(), p)
        ensures Read(w, p) == Read(w0, p)
      {
        if length >= 1 {
          BoundingBoxIsTube(p);
        }
      }
    }

    /**
     * Both successors grow away from the corridor: no cell at local depth
     * u.z >= 0 of either lies in this corridor's bounding box. The next piece
     * starts right past the far end, the portal room right behind the near end.
     */
    lemma ExitsOutside()
      requires length >= 1
      ensures GrowsAway(GetBoundingBox(), SuccessorAt(piece.ToFrame(), Vec3(0, 0, length), 0))
      ensures GrowsAway(GetBoundingBox(), SuccessorAt(piece.ToFrame(), Vec3(4, 0, -1), 2))
    {
      GrowsAwayThroughFace(piece.ToFrame(), Origin, Vec3(4, 4, length - 1), Vec3(0, 0, length), 0);
      GrowsAwayThroughFace(piece.ToFrame(), Origin, Vec3(4, 4, length - 1), Vec3(4, 0, -1), 2);
    }

    /**
     * `getNextPieces()`: at the start of a stronghold, first the portal room,
     * behind the corridor and turned by 180 degrees; then a piece drawn from
     * DefaultNext, straight on past the far end. Each is randomized.
     */
    method GetNextPieces() returns (r: seq<Candidate>)
      ensures |r| == if startOfStronghold then 2 else 1
      ensures startOfStronghold ==>
        r[0] == Candidate(StrongholdPortalRoom, SuccessorAt(piece.ToFrame(), Vec3(4, 0, -1), 2), true)
      ensures r[|r| - 1].kind in Kinds(DefaultNext) && r[|r| - 1].randomized
      ensures r[|r| - 1].frame == SuccessorAt(piece.ToFrame(), Vec3(0, 0, length), 0)
      ensures length >= 1 ==> forall i :: 0 <= i < |r| ==> GrowsAway(GetBoundingBox(), r[i].frame)
    {
      var f := piece.ToFrame();
      var kind := GetNextPiece(DefaultNext);
      var next := Candidate(kind, SuccessorAt(f, Vec3(0, 0, length), 0), true);
      if startOfStronghold {
        r := [Candidate(StrongholdPortalRoom, SuccessorAt(f, Vec3(4, 0, -1), 2), true), next];
      } else {
        r := [next];
      }
      if length >= 1 {
        ExitsOutside();
      }
    }
  }

  /**
   * DefaultNext: seven types, every weight positive, total weight 10. Neither
   * a corridor nor the portal room is drawn from it, so the portal room is
   * reached only from the corridor at the start of a stronghold.
   */
  lemma DefaultNextShape()
    ensures WellFormed(DefaultNext) && TotalWeight(DefaultNext) == 10
    ensures StrongholdCorridor !in Kinds(DefaultNext) && StrongholdPortalRoom !in Kinds(DefaultNext)
  {
  }
}
