/**
 * `FortressTurn`: a 5 by 5 nether-brick room with an opening in one side
 * wall, left or right, through which the fortress continues; its floor is
 * propped up by columns of nether brick filled down to the ground.
 */
module FortressTurns {
  import opened Geometry
  import opened Worlds
  import opened WeightedNext
  import opened StructurePieces
  import opened BoundingBoxes

  /** `DEFAULT_NEXT`: the successor types of a turn, with their weights. */
  const DefaultNext: Table := [
    Entry(FortressBlazeBalcony, 1),
    Entry(FortressNetherWartStairs, 1),
    Entry(FortressStaircase, 3),
    Entry(FortressRoom, 3),
    Entry(FortressStairRoom, 4),
    Entry(FortressBalconyIntersection, 4),
    Entry(FortressGateIntersection, 4),
    Entry(FortressIntersection, 6),
    Entry(FortressCorridor, 10)
  ]

  /** The local columns the supports are filled down from: the whole 5 by 5 floor. */
  ghost const SupportColumns: set<(int, int)> := set x, z | 0 <= x <= 4 && 0 <= z <= 4 :: (x, z)

  /** The support columns the loop has filled before reaching (xx, zz), in the order xx, then zz. */
  ghost function SupportsBefore(xx: int, zz: int): set<(int, int)>
  {
    set x, z | 0 <= x <= 4 && 0 <= z <= 4 && (x < xx || (x == xx && z < zz)) :: (x, z)
  }

  lemma SupportsBeforeStep(xx: int, zz: int)
    requires 0 <= xx <= 4 && 0 <= zz <= 4
    ensures (xx, zz) !in SupportsBefore(xx, zz)
    ensures SupportsBefore(xx, zz) + {(xx, zz)} == SupportsBefore(xx, zz + 1)
  {
  }

  lemma SupportsBeforeRow(xx: int)
    ensures SupportsBefore(xx, 5) == SupportsBefore(xx + 1, 0)
  {
  }

  lemma SupportsBeforeEnds()
    ensures SupportsBefore(0, 0) == {}
    ensures SupportsBefore(5, 0) == SupportColumns
  {
  }

  class FortressTurn {
    const piece: StructurePiece
    var left: bool

    /** A new turn: it opens to the right until randomized. */
    constructor ()
      ensures fresh(piece) && piece.position == Origin && piece.rotation == 0 && piece.rotationPoint == Origin
      ensures !left
    {
      piece := new StructurePiece();
      left := false;
    }

    /** `canPlace()`: a turn can always be placed. */
    function CanPlace(): (r: bool)
      ensures r
    {
      true
    }

    /** `randomize()`, given the draw `nextBoolean()`. */
    method Randomize(draw: bool)
      modifies this
      ensures left == draw
    {
      left := draw;
    }

    /** `getBoundingBox()`: the box of transform(0, 0, 0) and transform(4, 6, 4), 4 by 6 by 4 in every rotation. */
    function GetBoundingBox(): (b: BoundingBox)
      reads this, piece
      ensures XSize(b) == 4 && YSize(b) == 6 && ZSize(b) == 4
      ensures b.min.y == piece.position.y
    {
      TransformedBoxSize(piece.ToFrame(), Origin, Vec3(4, 6, 4));
      MakeBox(piece.Transform(0, 0, 0), piece.Transform(4, 6, 4))
    }

    /** The bounding box holds exactly the images of the local cells (0, 0, 0)..(4, 6, 4). */
    lemma BoundingBoxCells(p: Vec3)
      ensures Contains(GetBoundingBox(), p) <==> InLocalBox(Origin, Vec3(4, 6, 4), Untransform(piece.ToFrame(), p))
    {
      TransformedBox(piece.ToFrame(), Origin, Vec3(4, 6, 4), p);
    }

    /**
     * The fill-down loop that ends `place()`: every local column (x, z) of the
     * floor is filled with nether brick from local height -1 down, at most 50
     * cells, through air and liquid.
     */
    method FillToGround(w: World) returns (w': World)
      ensures ColumnsFilled(w, w', piece.ToFrame(), SupportColumns, piece.position.y - 1, 50, NetherBrick)
    {
      ghost var f := piece.ToFrame();
      ghost var top := f.position.y - 1;
      SupportsBeforeEnds();
      ColumnsFilledNone(w, f, top, 50, NetherBrick);
      ColumnsFilledSame(w, w, f, {}, SupportsBefore(0, 0), top, 50, NetherBrick);
      w' := w;
      var xx := 0;
      while xx <= 4
        invariant 0 <= xx <= 5
        invariant piece.ToFrame() == f
        invariant ColumnsFilled(w, w', f, SupportsBefore(xx, 0), top, 50, NetherBrick)
      {
        var zz := 0;
        while zz <= 4
          invariant 0 <= zz <= 5
          invariant piece.ToFrame() == f
          invariant ColumnsFilled(w, w', f, SupportsBefore(xx, zz), top, 50, NetherBrick)
        {
          SupportsBeforeStep(xx, zz);
          w' := piece.FillColumn(w, w', f, SupportsBefore(xx, zz), top, xx, -1, zz, 50, NetherBrick);
          zz := zz + 1;
        }
        SupportsBeforeRow(xx);
        ColumnsFilledSame(w, w', f, SupportsBefore(xx, zz), SupportsBefore(xx + 1, 0), top, 50, NetherBrick);
        xx := xx + 1;
      }
      ColumnsFilledSame(w, w', f, SupportsBefore(xx, 0), SupportColumns, top, 50, NetherBrick);
    }

    /**
     * The supports change only cells under the floor: each changed cell now
     * holds nether brick, lies at most 50 cells below the bounding box, and
     * the cell above it at floor height is in the bounding box.
     */
    lemma SupportsUnderFloor(w0: World, w: World, q: Vec3)
      requires ColumnsFilled(w0, w, piece.ToFrame(), SupportColumns, piece.position.y - 1, 50, NetherBrick)
      requires Read(w, q) != Read(w0, q)
      ensures Read(w, q) == NetherBrick
      ensures GetBoundingBox().min.y - 51 < q.y < GetBoundingBox().min.y
      ensures Contains(GetBoundingBox(), Vec3(q.x, GetBoundingBox().min.y, q.z))
    {
      var f := piece.ToFrame();
      ColumnsFilledBounds(w0, w, f, SupportColumns, piece.position.y - 1, 50, NetherBrick, q);
      UntransformLift(f, q, piece.position.y);
      BoundingBoxCells(Vec3(q.x, piece.position.y, q.z));
    }

    /**
     * The successor grows away from the turn, out of its side: no cell at
     * local depth u.z >= 0 of either possible successor lies in the turn's
     * bounding box.
     */
    lemma ExitsOutside()
      ensures GrowsAway(GetBoundingBox(), SuccessorAt(piece.ToFrame(), Vec3(5, 0, 4), 1))
      ensures GrowsAway(GetBoundingBox(), SuccessorAt(piece.ToFrame(), Vec3(-1, 0, 0), 3))
    {
      GrowsAwayThroughFace(piece.ToFrame(), Origin, Vec3(4, 6, 4), Vec3(5, 0, 4), 1);
      GrowsAwayThroughFace(piece.ToFrame(), Origin, Vec3(4, 6, 4), Vec3(-1, 0, 0), 3);
    }

    /**
     * `getNextPieces()`: one piece drawn from DefaultNext, randomized; turned
     * by +90 degrees at local (5, 0, 4) when the turn opens left, by -90
     * degrees at local (-1, 0, 0) otherwise.
     */
    method GetNextPieces() returns (r: seq<Candidate>)
      ensures |r| == 1 && r[0].kind in Kinds(DefaultNext) && r[0].randomized
      ensures left ==> r[0].frame == SuccessorAt(piece.ToFrame(), Vec3(5, 0, 4), 1)
      ensures !left ==> r[0].frame == SuccessorAt(piece.ToFrame(), Vec3(-1, 0, 0), 3)
      ensures GrowsAway(GetBoundingBox(), r[0].frame)
    {
      var f := piece.ToFrame();
      var kind := GetNextPiece(DefaultNext);
      ExitsOutside();
      var frame;
      if left {
        frame := SuccessorAt(f, Vec3(5, 0, 4), 1);
      } else {
        frame := SuccessorAt(f, Vec3(-1, 0, 0), 3);
      }
      r := [Candidate(kind, frame, true)];
    }
  }

  /** DefaultNext: nine types, every weight positive, total weight 36. */
  lemma DefaultNextWeights()
    ensures WellFormed(DefaultNext) && TotalWeight(DefaultNext) == 36
  {
    assert TotalWeight(DefaultNext[8..]) == 10;
    assert TotalWeight(DefaultNext[7..]) == 16;
    assert TotalWeight(DefaultNext[6..]) == 20;
    assert TotalWeight(DefaultNext[5..]) == 24;
    assert TotalWeight(DefaultNext[4..]) == 28;
    assert TotalWeight(DefaultNext[3..]) == 31;
    assert TotalWeight(DefaultNext[2..]) == 34;
    assert TotalWeight(DefaultNext[1..]) == 35;
  }

  /** The corridor is the most likely successor, and a turn never directly follows a turn. */
  lemma DefaultNextChoices()
    ensures Heaviest(DefaultNext, FortressCorridor)
    ensures FortressTurn !in Kinds(DefaultNext)
  {
    assert DefaultNext[8].kind == FortressCorridor;
    assert forall j :: 0 <= j < |DefaultNext| ==> DefaultNext[j].weight <= DefaultNext[8].weight;
  }
}
