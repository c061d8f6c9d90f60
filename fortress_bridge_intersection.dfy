/**
 * `FortressBridgeIntersection`: two nether-brick bridges crossing at right
 * angles, one 19 cells long along local z and one 19 cells long along local
 * x across its middle, each carried by pillars filled down to the ground
 * under its ends. The fortress goes on from the three open ends.
 */
module FortressBridgeIntersections {
  import opened Geometry
  import opened Worlds
  import opened WeightedNext
  import opened StructurePieces
  import opened BoundingBoxes

  /** `DEFAULT_NEXT`: the successor types of a bridge intersection, with their weights. */
  const DefaultNext: Table := [
    Entry(FortressBlazeBalcony, 1),
    Entry(FortressNetherWartStairs, 1),
    Entry(FortressRoom, 3),
    Entry(FortressStairRoom, 4),
    Entry(FortressBalconyIntersection, 4),
    Entry(FortressGateIntersection, 4),
    Entry(FortressBridge, 8)
  ]

  /** The local height the pillars are filled down from (at most 50 cells down). */
  const PillarTop := -4

  /** The columns under the two ends of the bridge along z: x 0..4, z 0..2 and z 16..18. */
  ghost const FirstPillarColumns: set<(int, int)> :=
    set x, z | 0 <= x <= 4 && 0 <= z <= 18 && (z <= 2 || 16 <= z) :: (x, z)

  /** The columns under the two ends of the bridge along x: x -7..-5 and x 9..11, z 7..11. */
  ghost const SecondPillarColumns: set<(int, int)> :=
    set x, z | -7 <= x <= 11 && (x <= -5 || 9 <= x) && 7 <= z <= 11 :: (x, z)

  /**
   * The first pillar columns filled before the loop reaches (xx, zz): the
   * loop runs over xx, then zz, and fills (xx, zz) and then (xx, 18 - zz).
   */
  ghost function FirstPillarsBefore(xx: int, zz: int): set<(int, int)>
  {
    set x, z | 0 <= x <= 4 && 0 <= z <= 18 && (z <= 2 || 16 <= z)
                 && (x < xx || (x == xx && (z < zz || 18 - zz < z))) :: (x, z)
  }

  lemma FirstPillarsStep(xx: int, zz: int)
    requires 0 <= xx <= 4 && 0 <= zz <= 2
    ensures (xx, zz) !in FirstPillarsBefore(xx, zz)
    ensures (xx, 18 - zz) !in FirstPillarsBefore(xx, zz) + {(xx, zz)}
    ensures FirstPillarsBefore(xx, zz) + {(xx, zz)} + {(xx, 18 - zz)} == FirstPillarsBefore(xx, zz + 1)
  {
  }

  lemma FirstPillarsRow(xx: int)
    ensures FirstPillarsBefore(xx, 3) == FirstPillarsBefore(xx + 1, 0)
  {
  }

  lemma FirstPillarsNone()
    ensures FirstPillarsBefore(0, 0) == {}
  {
  }

  lemma FirstPillarsAll()
    ensures FirstPillarsBefore(5, 0) == FirstPillarColumns
  {
  }

  /** The rows of the first pillar loop before xx are filled in w, starting from w0. */
  ghost predicate FirstRowsFilled(w0: World, w: World, f: Frame, top: int, xx: int)
  {
    ColumnsFilled(w0, w, f, FirstPillarsBefore(xx, 0), top, 50, NetherBrick)
  }

  /** Before the loop no column is filled. */
  lemma FirstPillarsStart(w: World, f: Frame, top: int)
    ensures FirstRowsFilled(w, w, f, top, 0)
  {
    FirstPillarsNone();
    ColumnsFilledNone(w, f, top, 50, NetherBrick);
    ColumnsFilledSame(w, w, f, {}, FirstPillarsBefore(0, 0), top, 50, NetherBrick);
  }

  /** After the loop every column of the pillars is filled. */
  lemma FirstPillarsFinish(w0: World, w: World, f: Frame, top: int)
    requires FirstRowsFilled(w0, w, f, top, 5)
    ensures ColumnsFilled(w0, w, f, FirstPillarColumns, top, 50, NetherBrick)
  {
    FirstPillarsAll();
    ColumnsFilledSame(w0, w, f, FirstPillarsBefore(5, 0), FirstPillarColumns, top, 50, NetherBrick);
  }

  /**
   * The second pillar columns filled before the loop reaches (xx, zz): the
   * loop runs over xx in -7..-5, then zz, and fills (xx, zz) and then
   * (4 - xx, zz).
   */
  ghost function SecondPillarsBefore(xx: int, zz: int): set<(int, int)>
  {
    set x, z | -7 <= x <= 11 && (x <= -5 || 9 <= x) && 7 <= z <= 11
                 && (x < xx || 4 - xx < x || ((x == xx || x == 4 - xx) && z < zz)) :: (x, z)
  }

  lemma SecondPillarsStep(xx: int, zz: int)
    requires -7 <= xx <= -5 && 7 <= zz <= 11
    ensures (xx, zz) !in SecondPillarsBefore(xx, zz)
    ensures (4 - xx, zz) !in SecondPillarsBefore(xx, zz) + {(xx, zz)}
    ensures SecondPillarsBefore(xx, zz) + {(xx, zz)} + {(4 - xx, zz)} == SecondPillarsBefore(xx, zz + 1)
  {
  }

  lemma SecondPillarsRow(xx: int)
    ensures SecondPillarsBefore(xx, 12) == SecondPillarsBefore(xx + 1, 7)
  {
  }

  lemma SecondPillarsNone()
    ensures SecondPillarsBefore(-7, 7) == {}
  {
  }

  lemma SecondPillarsAll()
    ensures SecondPillarsBefore(-4, 7) == SecondPillarColumns
  {
  }

  /** The rows of the second pillar loop before xx are filled in w, starting from w0. */
  ghost predicate SecondRowsFilled(w0: World, w: World, f: Frame, top: int, xx: int)
  {
    ColumnsFilled(w0, w, f, SecondPillarsBefore(xx, 7), top, 50, NetherBrick)
  }

  /** Before the loop no column is filled. */
  lemma SecondPillarsStart(w: World, f: Frame, top: int)
    ensures SecondRowsFilled(w, w, f, top, -7)
  {
    SecondPillarsNone();
    ColumnsFilledNone(w, f, top, 50, NetherBrick);
    ColumnsFilledSame(w, w, f, {}, SecondPillarsBefore(-7, 7), top, 50, NetherBrick);
  }

  /** After the loop every column of the pillars is filled. */
  lemma SecondPillarsFinish(w0: World, w: World, f: Frame, top: int)
    requires SecondRowsFilled(w0, w, f, top, -4)
    ensures ColumnsFilled(w0, w, f, SecondPillarColumns, top, 50, NetherBrick)
  {
    SecondPillarsAll();
    ColumnsFilledSame(w0, w, f, SecondPillarsBefore(-4, 7), SecondPillarColumns, top, 50, NetherBrick);
  }

  class FortressBridgeIntersection {
    const piece: StructurePiece

    constructor ()
      ensures fresh(piece) && piece.position == Origin && piece.rotation == 0 && piece.rotationPoint == Origin
    {
      piece := new StructurePiece();
    }

    /** `canPlace()`: a bridge intersection can always be placed. */
    function CanPlace(): (r: bool)
      ensures r
    {
      true
    }

    /** `randomize()`: a bridge intersection has nothing to draw, so its piece is placed as before. */
    method Randomize()
      ensures piece.ToFrame() == old(piece.ToFrame())
    {
    }

    /**
     * `getBoundingBox()`: the box of transform(-7, -3, 0) and transform(11,
     * 4, 18), 18 by 7 by 18 in every rotation, its floor three cells below
     * the piece's position.
     */
    function GetBoundingBox(): (b: BoundingBox)
      reads this, piece
      ensures XSize(b) == 18 && YSize(b) == 7 && ZSize(b) == 18
      ensures b.min.y == piece.position.y - 3
    {
      TransformedBoxSize(piece.ToFrame(), Vec3(-7, -3, 0), Vec3(11, 4, 18));
      MakeBox(piece.Transform(-7, -3, 0), piece.Transform(11, 4, 18))
    }

    /** The bounding box holds exactly the images of the local cells (-7, -3, 0)..(11, 4, 18). */
    lemma BoundingBoxCells(p: Vec3)
      ensures Contains(GetBoundingBox(), p)
          <==> InLocalBox(Vec3(-7, -3, 0), Vec3(11, 4, 18), Untransform(piece.ToFrame(), p))
    {
      TransformedBox(piece.ToFrame(), Vec3(-7, -3, 0), Vec3(11, 4, 18), p);
    }

    /**
     * The first pillar loop of `place()`: for xx 0..4 and zz 0..2, the
     * columns (xx, zz) and (xx, 18 - zz) are filled with nether brick from
     * local height -4 down, at most 50 cells, through air and liquid.
     */
    method BuildFirstPillars(w: World) returns (w': World)
      ensures ColumnsFilled(w, w', piece.ToFrame(), FirstPillarColumns,
                            piece.position.y + PillarTop, 50, NetherBrick)
    {
      ghost var f := piece.ToFrame();
      ghost var top := f.position.y + PillarTop;
      FirstPillarsStart(w, f, top);
      w' := w;
      var xx := 0;
      while xx <= 4
        invariant 0 <= xx <= 5
        invariant piece.ToFrame() == f
        invariant FirstRowsFilled(w, w', f, top, xx)
      {
        w' := BuildFirstPillarRow(w, w', f, top, xx);
        xx := xx + 1;
      }
      FirstPillarsFinish(w, w', f, top);
    }

    /** One pass of the outer loop of the first pillar loop: the columns of row xx. */
    method BuildFirstPillarRow(ghost w0: World, w: World, ghost f: Frame, ghost top: int, xx: int)
      returns (w': World)
      requires 0 <= xx <= 4
      requires f == piece.ToFrame() && top == f.position.y + PillarTop
      requires FirstRowsFilled(w0, w, f, top, xx)
      ensures FirstRowsFilled(w0, w', f, top, xx + 1)
    {
      w' := w;
      var zz := 0;
      while zz <= 2
        invariant 0 <= zz <= 3
        invariant ColumnsFilled(w0, w', f, FirstPillarsBefore(xx, zz), top, 50, NetherBrick)
      {
        FirstPillarsStep(xx, zz);
        ghost var cols := FirstPillarsBefore(xx, zz);
        w' := piece.FillColumn(w0, w', f, cols, top, xx, PillarTop, zz, 50, NetherBrick);
        w' := piece.FillColumn(w0, w', f, cols + {(xx, zz)}, top, xx, PillarTop, 18 - zz, 50, NetherBrick);
        zz := zz + 1;
      }
      FirstPillarsRow(xx);
      ColumnsFilledSame(w0, w', f, FirstPillarsBefore(xx, zz), FirstPillarsBefore(xx + 1, 0), top, 50, NetherBrick);
    }

    /**
     * The second pillar loop of `place()`: for xx -7..-5 and zz 7..11, the
     * columns (xx, zz) and (4 - xx, zz) are filled the same way.
     */
    method BuildSecondPillars(w: World) returns (w': World)
      ensures ColumnsFilled(w, w', piece.ToFrame(), SecondPillarColumns,
                            piece.position.y + PillarTop, 50, NetherBrick)
    {
      ghost var f := piece.ToFrame();
      ghost var top := f.position.y + PillarTop;
      SecondPillarsStart(w, f, top);
      w' := w;
      var xx := -7;
      while xx <= -5
        invariant -7 <= xx <= -4
        invariant piece.ToFrame() == f
        invariant SecondRowsFilled(w, w', f, top, xx)
      {
        w' := BuildSecondPillarRow(w, w', f, top, xx);
        xx := xx + 1;
      }
      SecondPillarsFinish(w, w', f, top);
    }

    /** One pass of the outer loop of the second pillar loop: the columns xx and 4 - xx. */
    method BuildSecondPillarRow(ghost w0: World, w: World, ghost f: Frame, ghost top: int, xx: int)
      returns (w': World)
      requires -7 <= xx <= -5
      requires f == piece.ToFrame() && top == f.position.y + PillarTop
      requires SecondRowsFilled(w0, w, f, top, xx)
      ensures SecondRowsFilled(w0, w', f, top, xx + 1)
    {
      w' := w;
      var zz := 7;
      while zz <= 11
        invariant 7 <= zz <= 12
        invariant ColumnsFilled(w0, w', f, SecondPillarsBefore(xx, zz), top, 50, NetherBrick)
      {
        SecondPillarsStep(xx, zz);
        ghost var cols := SecondPillarsBefore(xx, zz);
        w' := piece.FillColumn(w0, w', f, cols, top, xx, PillarTop, zz, 50, NetherBrick);
        w' := piece.FillColumn(w0, w', f, cols + {(xx, zz)}, top, 4 - xx, PillarTop, zz, 50, NetherBrick);
        zz := zz + 1;
      }
      SecondPillarsRow(xx);
      ColumnsFilledSame(w0, w', f, SecondPillarsBefore(xx, zz), SecondPillarsBefore(xx + 1, 7), top, 50, NetherBrick);
    }

    /**
     * Either pillar loop changes only cells under the bridge: each changed
     * cell now holds nether brick, lies below the bounding box by at most 50
     * cells, and the cell above it on the box's floor is in the bounding box.
     */
    lemma PillarsUnderBridge(w0: World, w: World, cols: set<(int, int)>, q: Vec3)
      requires cols == FirstPillarColumns || cols == SecondPillarColumns
      requires ColumnsFilled(w0, w, piece.ToFrame(), cols, piece.position.y + PillarTop, 50, NetherBrick)
      requires Read(w, q) != Read(w0, q)
      ensures Read(w, q) == NetherBrick
      ensures GetBoundingBox().min.y - 51 < q.y < GetBoundingBox().min.y
      ensures Contains(GetBoundingBox(), Vec3(q.x, GetBoundingBox().min.y, q.z))
    {
      var f := piece.ToFrame();
      ColumnsFilledBounds(w0, w, f, cols, piece.position.y + PillarTop, 50, NetherBrick, q);
      var c := LocalColumn(f, q);
      if cols == FirstPillarColumns {
        assert c in FirstPillarColumns;
      } else {
        assert c in SecondPillarColumns;
      }
      AboveInBox(q);
    }

    /** A world cell whose local column lies in the box's footprint has the cell above it on the box's floor in the box. */
    lemma AboveInBox(q: Vec3)
      requires -7 <= LocalColumn(piece.ToFrame(), q).0 <= 11 && 0 <= LocalColumn(piece.ToFrame(), q).1 <= 18
      ensures Contains(GetBoundingBox(), Vec3(q.x, GetBoundingBox().min.y, q.z))
    {
      UntransformLift(piece.ToFrame(), q, piece.position.y - 3);
      BoundingBoxCells(Vec3(q.x, piece.position.y - 3, q.z));
    }

    /**
     * All three successors grow away from the intersection: straight on past
     * the far end of the bridge along z, and out of either end of the bridge
     * along x.
     */
    lemma ExitsOutside()
      ensures GrowsAway(GetBoundingBox(), SuccessorAt(piece.ToFrame(), Vec3(0, 0, 19), 0))
      ensures GrowsAway(GetBoundingBox(), SuccessorAt(piece.ToFrame(), Vec3(-8, 0, 7), 3))
      ensures GrowsAway(GetBoundingBox(), SuccessorAt(piece.ToFrame(), Vec3(12, 0, 11), 1))
    {
      var lo, hi := Vec3(-7, -3, 0), Vec3(11, 4, 18);
      GrowsAwayThroughFace(piece.ToFrame(), lo, hi, Vec3(0, 0, 19), 0);
      GrowsAwayThroughFace(piece.ToFrame(), lo, hi, Vec3(-8, 0, 7), 3);
      GrowsAwayThroughFace(piece.ToFrame(), lo, hi, Vec3(12, 0, 11), 1);
    }

    /**
     * `getNextPieces()`: three pieces drawn from DefaultNext, each randomized:
     * in front at local (0, 0, 19) with the same rotation, to the right at
     * (-8, 0, 7) turned by -90 degrees, and to the left at (12, 0, 11) turned
     * by +90 degrees.
     */
    method GetNextPieces() returns (r: seq<Candidate>)
      ensures |r| == 3
      ensures forall i :: 0 <= i < 3 ==> r[i].kind in Kinds(DefaultNext) && r[i].randomized
      ensures r[0].frame == SuccessorAt(piece.ToFrame(), Vec3(0, 0, 19), 0)
      ensures r[1].frame == SuccessorAt(piece.ToFrame(), Vec3(-8, 0, 7), 3)
      ensures r[2].frame == SuccessorAt(piece.ToFrame(), Vec3(12, 0, 11), 1)
      ensures forall i :: 0 <= i < 3 ==> GrowsAway(GetBoundingBox(), r[i].frame)
    {
      var f := piece.ToFrame();
      ExitsOutside();
      var front := GetNextPiece(DefaultNext);
      var right := GetNextPiece(DefaultNext);
      var left := GetNextPiece(DefaultNext);
      r := [Candidate(front, SuccessorAt(f, Vec3(0, 0, 19), 0), true),
            Candidate(right, SuccessorAt(f, Vec3(-8, 0, 7), 3), true),
            Candidate(left, SuccessorAt(f, Vec3(12, 0, 11), 1), true)];
    }
  }

  /** DefaultNext: seven types, every weight positive, total weight 25. */
  lemma DefaultNextWeights()
    ensures WellFormed(DefaultNext) && TotalWeight(DefaultNext) == 25
  {
    assert TotalWeight(DefaultNext[6..]) == 8;
    assert TotalWeight(DefaultNext[5..]) == 12;
    assert TotalWeight(DefaultNext[4..]) == 16;
    assert TotalWeight(DefaultNext[3..]) == 20;
    assert TotalWeight(DefaultNext[2..]) == 23;
    assert TotalWeight(DefaultNext[1..]) == 24;
  }

  /** A bridge is the most likely successor, and an intersection never directly follows an intersection. */
  lemma DefaultNextChoices()
    ensures Heaviest(DefaultNext, FortressBridge)
    ensures FortressBridgeIntersection !in Kinds(DefaultNext)
  {
    assert DefaultNext[6].kind == FortressBridge;
    assert forall j :: 0 <= j < |DefaultNext| ==> DefaultNext[j].weight <= DefaultNext[6].weight;
  }
}
