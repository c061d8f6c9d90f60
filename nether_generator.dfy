/**
 * The integer rules of the nether terrain generator: the classification of
 * each cell of a generated cuboid by the sign of its noise value, the bedrock
 * floor and ceiling caps, the column walk that finds the highest solid block,
 * the bounded search for a safe spawn, and the flat surface heights.
 *
 * The block buffer and the world are maps from cells to materials (a missing
 * cell reads as air). Noise is given by its sign at each local cell, and the
 * random draws are inputs: one `nextInt(4)` per column and cap, and one pair
 * of `nextInt(256)` per spawn attempt.
 */
module NetherGenerators {
  import opened Geometry
  import opened Worlds

  /** `HEIGHT`, `SEA_LEVEL` and `BEDROCK_DEPTH`. */
  const Height := 128
  const SeaLevel := 31
  const BedrockDepth := 4

  /** `MathHelper.clamp(value, low, high)`. */
  function Clamp(value: int, low: int, high: int): (r: int)
    requires low <= high
    ensures low <= r <= high
    ensures low <= value <= high ==> r == value
    ensures value < low ==> r == low
    ensures value > high ==> r == high
  {
    if value < low then low else if value > high then high else value
  }

  /** The cuboid being generated: its world origin and its sizes. */
  datatype Region = Region(x: int, y: int, z: int, sizeX: int, sizeY: int, sizeZ: int)

  predicate InRegion(r: Region, p: Vec3)
  {
    0 <= p.x - r.x < r.sizeX && 0 <= p.y - r.y < r.sizeY && 0 <= p.z - r.z < r.sizeZ
  }

  /** The column (x, z) of world cell p lies over the region. */
  predicate OverRegion(r: Region, p: Vec3)
  {
    0 <= p.x - r.x < r.sizeX && 0 <= p.z - r.z < r.sizeZ
  }

  /**
   * The material of one cell from the sign of its (smoothed) noise value:
   * netherrack when the value is not negative, otherwise lava at or below
   * sea level and air above it.
   */
  function TerrainCell(nonNegative: bool, worldY: int): (m: Material)
    ensures m == Netherrack || m == Lava || m == Air
    ensures m == Netherrack <==> nonNegative
    ensures m == Lava ==> worldY <= SeaLevel
    ensures m == Air ==> worldY > SeaLevel
  {
    if nonNegative then Netherrack
    else if worldY <= SeaLevel then Lava
    else Air
  }

  /** `(byte) (random.nextInt(BEDROCK_DEPTH) + 1)`: a draw below 4 never wraps the byte. */
  function CapDepth(draw: int): int
  {
    draw + 1
  }

  /** The bedrock floor of a column: world heights 0 up to its depth, exclusive. */
  predicate InFloorCap(r: Region, floorDraw: (int, int) -> int, p: Vec3)
  {
    OverRegion(r, p) && 0 <= p.y < CapDepth(floorDraw(p.x - r.x, p.z - r.z))
  }

  /** The bedrock ceiling of a column: its depth of cells up to world height 127. */
  predicate InCeilingCap(r: Region, ceilingDraw: (int, int) -> int, p: Vec3)
  {
    OverRegion(r, p) && Height - CapDepth(ceilingDraw(p.x - r.x, p.z - r.z)) <= p.y <= Height - 1
  }

  /** The floor is laid when the region starts at height 0. */
  predicate FloorLaid(r: Region, floorDraw: (int, int) -> int, p: Vec3)
  {
    r.y == 0 && InFloorCap(r, floorDraw, p)
  }

  /** The ceiling is laid when the region ends at the top of the world. */
  predicate CeilingLaid(r: Region, ceilingDraw: (int, int) -> int, p: Vec3)
  {
    r.y == Height - r.sizeY && InCeilingCap(r, ceilingDraw, p)
  }

  /** The buffer after the classification pass alone. */
  function Classified(data0: World, r: Region, solid: (int, int, int) -> bool, p: Vec3): Material
  {
    if InRegion(r, p) then TerrainCell(solid(p.x - r.x, p.y - r.y, p.z - r.z), p.y) else Read(data0, p)
  }

  /** The material of cell p once the terrain of region r is generated over data0. */
  function Generated(data0: World, r: Region, solid: (int, int, int) -> bool,
                     floorDraw: (int, int) -> int, ceilingDraw: (int, int) -> int, p: Vec3): (m: Material)
    ensures FloorLaid(r, floorDraw, p) || CeilingLaid(r, ceilingDraw, p) ==> m == Bedrock
    ensures InRegion(r, p) ==> (m == Bedrock <==> FloorLaid(r, floorDraw, p) || CeilingLaid(r, ceilingDraw, p))
    ensures !InRegion(r, p) && !FloorLaid(r, floorDraw, p) && !CeilingLaid(r, ceilingDraw, p) ==> m == Read(data0, p)
    ensures InRegion(r, p) && !FloorLaid(r, floorDraw, p) && !CeilingLaid(r, ceilingDraw, p) ==>
      (m == Netherrack <==> solid(p.x - r.x, p.y - r.y, p.z - r.z))
    ensures InRegion(r, p) && p.y <= SeaLevel ==> m != Air
    ensures InRegion(r, p) && p.y > SeaLevel ==> m != Lava
  {
    if CeilingLaid(r, ceilingDraw, p) || FloorLaid(r, floorDraw, p) then Bedrock
    else Classified(data0, r, solid, p)
  }

  /**
   * With every draw below `BEDROCK_DEPTH`, each cap is one to four cells
   * deep: the floor always covers height 0 and never reaches height 4, the
   * ceiling always covers height 127 and never reaches height 123.
   */
  lemma CapDepths(r: Region, floorDraw: (int, int) -> int, ceilingDraw: (int, int) -> int, p: Vec3)
    requires forall xx, zz :: 0 <= floorDraw(xx, zz) < BedrockDepth
    requires forall xx, zz :: 0 <= ceilingDraw(xx, zz) < BedrockDepth
    requires OverRegion(r, p)
    ensures InFloorCap(r, floorDraw, p) ==> 0 <= p.y < BedrockDepth
    ensures InCeilingCap(r, ceilingDraw, p) ==> Height - BedrockDepth <= p.y < Height
    ensures p.y == 0 ==> InFloorCap(r, floorDraw, p)
    ensures p.y == Height - 1 ==> InCeilingCap(r, ceilingDraw, p)
  {
    var d := floorDraw(p.x - r.x, p.z - r.z);
    var e := ceilingDraw(p.x - r.x, p.z - r.z);
    assert 0 <= d < BedrockDepth && 0 <= e < BedrockDepth;
  }

  // ---------------------------------------------------------------------------
  // The classification pass
  // ---------------------------------------------------------------------------

  /** Local cell (a, b, c) comes before (xx, yy, zz) in the loop order over xx, then yy, then zz. */
  predicate Before(a: int, b: int, c: int, xx: int, yy: int, zz: int)
  {
    a < xx || (a == xx && (b < yy || (b == yy && c < zz)))
  }

  /** data is data0 with every region cell before (xx, yy, zz) classified. */
  ghost predicate ClassifiedUpTo(data0: World, data: World, r: Region, solid: (int, int, int) -> bool,
                                 xx: int, yy: int, zz: int)
  {
    forall p :: Read(data, p) ==
      if InRegion(r, p) && Before(p.x - r.x, p.y - r.y, p.z - r.z, xx, yy, zz)
      then TerrainCell(solid(p.x - r.x, p.y - r.y, p.z - r.z), p.y)
      else Read(data0, p)
  }

  lemma ClassifyWrite(data0: World, data: World, r: Region, solid: (int, int, int) -> bool,
                      xx: int, yy: int, zz: int)
    requires 0 <= xx < r.sizeX && 0 <= yy < r.sizeY && 0 <= zz < r.sizeZ
    requires ClassifiedUpTo(data0, data, r, solid, xx, yy, zz)
    ensures ClassifiedUpTo(data0, data[Vec3(r.x + xx, r.y + yy, r.z + zz) :=
      TerrainCell(solid(xx, yy, zz), r.y + yy)], r, solid, xx, yy, zz + 1)
  {
    var q := Vec3(r.x + xx, r.y + yy, r.z + zz);
    var data' := data[q := TerrainCell(solid(xx, yy, zz), r.y + yy)];
    forall p
      ensures Read(data', p) ==
        if InRegion(r, p) && Before(p.x - r.x, p.y - r.y, p.z - r.z, xx, yy, zz + 1)
        then TerrainCell(solid(p.x - r.x, p.y - r.y, p.z - r.z), p.y)
        else Read(data0, p)
    {
      if p != q {
        assert Read(data', p) == Read(data, p);
      }
    }
  }

  lemma ClassifyRowDone(data0: World, data: World, r: Region, solid: (int, int, int) -> bool,
                        xx: int, yy: int, zz: int)
    requires zz >= r.sizeZ
    requires ClassifiedUpTo(data0, data, r, solid, xx, yy, zz)
    ensures ClassifiedUpTo(data0, data, r, solid, xx, yy + 1, 0)
  {
  }

  lemma ClassifyPlaneDone(data0: World, data: World, r: Region, solid: (int, int, int) -> bool,
                          xx: int, yy: int)
    requires yy >= r.sizeY
    requires ClassifiedUpTo(data0, data, r, solid, xx, yy, 0)
    ensures ClassifiedUpTo(data0, data, r, solid, xx + 1, 0, 0)
  {
  }

  /** The first loop nest of `generateTerrain`: every cell of the region gets its terrain material. */
  method Classify(data0: World, r: Region, solid: (int, int, int) -> bool) returns (data: World)
    ensures forall p :: Read(data, p) == Classified(data0, r, solid, p)
  {
    data := data0;
    var xx := 0;
    while xx < r.sizeX
      invariant 0 <= xx
      invariant ClassifiedUpTo(data0, data, r, solid, xx, 0, 0)
      decreases r.sizeX - xx
    {
      var yy := 0;
      while yy < r.sizeY
        invariant 0 <= yy
        invariant ClassifiedUpTo(data0, data, r, solid, xx, yy, 0)
        decreases r.sizeY - yy
      {
        var zz := 0;
        while zz < r.sizeZ
          invariant 0 <= zz
          invariant ClassifiedUpTo(data0, data, r, solid, xx, yy, zz)
          decreases r.sizeZ - zz
        {
          ClassifyWrite(data0, data, r, solid, xx, yy, zz);
          data := data[Vec3(r.x + xx, r.y + yy, r.z + zz) := TerrainCell(solid(xx, yy, zz), r.y + yy)];
          zz := zz + 1;
        }
        ClassifyRowDone(data0, data, r, solid, xx, yy, zz);
        yy := yy + 1;
      }
      ClassifyPlaneDone(data0, data, r, solid, xx, yy);
      xx := xx + 1;
    }
  }

  // ---------------------------------------------------------------------------
  // The bedrock caps
  // ---------------------------------------------------------------------------

  /** Column (a, c) at height h comes before column (xx, zz) at height yy in the floor loops (upwards). */
  predicate FloorBefore(a: int, c: int, h: int, xx: int, zz: int, yy: int)
  {
    a < xx || (a == xx && (c < zz || (c == zz && h < yy)))
  }

  /** data is data0 with the floor cells before column (xx, zz) and height yy turned to bedrock. */
  ghost predicate FloorUpTo(data0: World, data: World, r: Region, floorDraw: (int, int) -> int,
                            xx: int, zz: int, yy: int)
  {
    forall p :: Read(data, p) ==
      if InFloorCap(r, floorDraw, p) && FloorBefore(p.x - r.x, p.z - r.z, p.y, xx, zz, yy)
      then Bedrock
      else Read(data0, p)
  }

  lemma FloorWrite(data0: World, data: World, r: Region, floorDraw: (int, int) -> int,
                   xx: int, zz: int, yy: int)
    requires 0 <= xx < r.sizeX && 0 <= zz < r.sizeZ && 0 <= yy < CapDepth(floorDraw(xx, zz))
    requires FloorUpTo(data0, data, r, floorDraw, xx, zz, yy)
    ensures FloorUpTo(data0, data[Vec3(r.x + xx, yy, r.z + zz) := Bedrock], r, floorDraw, xx, zz, yy + 1)
  {
    var q := Vec3(r.x + xx, yy, r.z + zz);
    var data' := data[q := Bedrock];
    forall p
      ensures Read(data', p) ==
        if InFloorCap(r, floorDraw, p) && FloorBefore(p.x - r.x, p.z - r.z, p.y, xx, zz, yy + 1)
        then Bedrock
        else Read(data0, p)
    {
      if p != q {
        assert Read(data', p) == Read(data, p);
      }
    }
  }

  lemma FloorColumnDone(data0: World, data: World, r: Region, floorDraw: (int, int) -> int,
                        xx: int, zz: int, yy: int)
    requires yy >= CapDepth(floorDraw(xx, zz))
    requires FloorUpTo(data0, data, r, floorDraw, xx, zz, yy)
    ensures FloorUpTo(data0, data, r, floorDraw, xx, zz + 1, 0)
  {
    forall p
      ensures Read(data, p) ==
        if InFloorCap(r, floorDraw, p) && FloorBefore(p.x - r.x, p.z - r.z, p.y, xx, zz + 1, 0)
        then Bedrock
        else Read(data0, p)
    {
      if InFloorCap(r, floorDraw, p) && p.x - r.x == xx && p.z - r.z == zz {
        assert p.y < yy;
      }
    }
  }

  lemma FloorRowDone(data0: World, data: World, r: Region, floorDraw: (int, int) -> int, xx: int, zz: int)
    requires zz >= r.sizeZ
    requires FloorUpTo(data0, data, r, floorDraw, xx, zz, 0)
    ensures FloorUpTo(data0, data, r, floorDraw, xx + 1, 0, 0)
  {
  }

  /** The bedrock floor loops of `generateTerrain`, run when the region starts at height 0. */
  method FloorCap(data0: World, r: Region, floorDraw: (int, int) -> int) returns (data: World)
    ensures forall p :: Read(data, p) == if InFloorCap(r, floorDraw, p) then Bedrock else Read(data0, p)
  {
    data := data0;
    var xx := 0;
    while xx < r.sizeX
      invariant 0 <= xx
      invariant FloorUpTo(data0, data, r, floorDraw, xx, 0, 0)
      decreases r.sizeX - xx
    {
      var zz := 0;
      while zz < r.sizeZ
        invariant 0 <= zz
        invariant FloorUpTo(data0, data, r, floorDraw, xx, zz, 0)
        decreases r.sizeZ - zz
      {
        var depth := CapDepth(floorDraw(xx, zz));
        var yy := 0;
        while yy < depth
          invariant 0 <= yy
          invariant FloorUpTo(data0, data, r, floorDraw, xx, zz, yy)
          decreases depth - yy
        {
          FloorWrite(data0, data, r, floorDraw, xx, zz, yy);
          data := data[Vec3(r.x + xx, yy, r.z + zz) := Bedrock];
          yy := yy + 1;
        }
        FloorColumnDone(data0, data, r, floorDraw, xx, zz, yy);
        zz := zz + 1;
      }
      FloorRowDone(data0, data, r, floorDraw, xx, zz);
      xx := xx + 1;
    }
  }

  /** Column (a, c) at height h comes before column (xx, zz) at height yy in the ceiling loops (downwards). */
  predicate CeilingBefore(a: int, c: int, h: int, xx: int, zz: int, yy: int)
  {
    a < xx || (a == xx && (c < zz || (c == zz && h > yy)))
  }

  /** data is data0 with the ceiling cells before column (xx, zz) and height yy turned to bedrock. */
  ghost predicate CeilingUpTo(data0: World, data: World, r: Region, ceilingDraw: (int, int) -> int,
                              xx: int, zz: int, yy: int)
  {
    forall p :: Read(data, p) ==
      if InCeilingCap(r, ceilingDraw, p) && CeilingBefore(p.x - r.x, p.z - r.z, p.y, xx, zz, yy)
      then Bedrock
      else Read(data0, p)
  }

  lemma CeilingWrite(data0: World, data: World, r: Region, ceilingDraw: (int, int) -> int,
                     xx: int, zz: int, yy: int)
    requires 0 <= xx < r.sizeX && 0 <= zz < r.sizeZ
    requires Height - CapDepth(ceilingDraw(xx, zz)) <= yy <= Height - 1
    requires CeilingUpTo(data0, data, r, ceilingDraw, xx, zz, yy)
    ensures CeilingUpTo(data0, data[Vec3(r.x + xx, yy, r.z + zz) := Bedrock], r, ceilingDraw, xx, zz, yy - 1)
  {
    var q := Vec3(r.x + xx, yy, r.z + zz);
    var data' := data[q := Bedrock];
    forall p
      ensures Read(data', p) ==
        if InCeilingCap(r, ceilingDraw, p) && CeilingBefore(p.x - r.x, p.z - r.z, p.y, xx, zz, yy - 1)
        then Bedrock
        else Read(data0, p)
    {
      if p != q {
        assert Read(data', p) == Read(data, p);
      }
    }
  }

  lemma CeilingColumnDone(data0: World, data: World, r: Region, ceilingDraw: (int, int) -> int,
                          xx: int, zz: int, yy: int)
    requires yy < Height - CapDepth(ceilingDraw(xx, zz))
    requires CeilingUpTo(data0, data, r, ceilingDraw, xx, zz, yy)
    ensures CeilingUpTo(data0, data, r, ceilingDraw, xx, zz + 1, Height - 1)
  {
    forall p
      ensures Read(data, p) ==
        if InCeilingCap(r, ceilingDraw, p) && CeilingBefore(p.x - r.x, p.z - r.z, p.y, xx, zz + 1, Height - 1)
        then Bedrock
        else Read(data0, p)
    {
      if InCeilingCap(r, ceilingDraw, p) && p.x - r.x == xx && p.z - r.z == zz {
        assert p.y > yy;
      }
    }
  }

  lemma CeilingRowDone(data0: World, data: World, r: Region, ceilingDraw: (int, int) -> int, xx: int, zz: int)
    requires zz >= r.sizeZ
    requires CeilingUpTo(data0, data, r, ceilingDraw, xx, zz, Height - 1)
    ensures CeilingUpTo(data0, data, r, ceilingDraw, xx + 1, 0, Height - 1)
  {
  }

  /** The bedrock ceiling loops of `generateTerrain`, run when the region ends at the top of the world. */
  method CeilingCap(data0: World, r: Region, ceilingDraw: (int, int) -> int) returns (data: World)
    ensures forall p :: Read(data, p) == if InCeilingCap(r, ceilingDraw, p) then Bedrock else Read(data0, p)
  {
    data := data0;
    var xx := 0;
    while xx < r.sizeX
      invariant 0 <= xx
      invariant CeilingUpTo(data0, data, r, ceilingDraw, xx, 0, Height - 1)
      decreases r.sizeX - xx
    {
      var zz := 0;
      while zz < r.sizeZ
        invariant 0 <= zz
        invariant CeilingUpTo(data0, data, r, ceilingDraw, xx, zz, Height - 1)
        decreases r.sizeZ - zz
      {
        var depth := CapDepth(ceilingDraw(xx, zz));
        var yy := Height - 1;
        while yy >= Height - depth
          invariant yy <= Height - 1
          invariant yy >= Height - depth - 1 || yy == Height - 1
          invariant CeilingUpTo(data0, data, r, ceilingDraw, xx, zz, yy)
          decreases yy + 1 - (Height - depth)
        {
          CeilingWrite(data0, data, r, ceilingDraw, xx, zz, yy);
          data := data[Vec3(r.x + xx, yy, r.z + zz) := Bedrock];
          yy := yy - 1;
        }
        CeilingColumnDone(data0, data, r, ceilingDraw, xx, zz, yy);
        zz := zz + 1;
      }
      CeilingRowDone(data0, data, r, ceilingDraw, xx, zz);
      xx := xx + 1;
    }
  }

  /**
   * `generateTerrain(blockData, x, y, z, …)` for a buffer whose floored sizes
   * are sizeX, sizeY and sizeZ: nothing at or above the top of the world;
   * otherwise the region, with its height clamped into 0..128, is classified,
   * then the floor is laid when it starts at height 0 and the ceiling when it
   * ends at height 128.
   */
  method GenerateTerrain(data: World, x: int, y: int, z: int, sizeX: int, sizeY: int, sizeZ: int,
                         solid: (int, int, int) -> bool,
                         floorDraw: (int, int) -> int, ceilingDraw: (int, int) -> int)
    returns (data': World)
    requires forall xx, zz :: 0 <= floorDraw(xx, zz) < BedrockDepth
    requires forall xx, zz :: 0 <= ceilingDraw(xx, zz) < BedrockDepth
    ensures y >= Height ==> data' == data
    ensures y < Height ==> forall p :: (Read(data', p) ==
      Generated(data, Region(x, y, z, sizeX, Clamp(sizeY, 0, Height), sizeZ), solid, floorDraw, ceilingDraw, p))
  {
    if y >= Height {
      return data;
    }
    var r := Region(x, y, z, sizeX, Clamp(sizeY, 0, Height), sizeZ);
    data' := Classify(data, r, solid);
    ghost var classified := data';
    if y == 0 {
      data' := FloorCap(data', r, floorDraw);
    }
    ghost var floored := data';
    assert forall p :: (Read(floored, p) ==
      if FloorLaid(r, floorDraw, p) then Bedrock else Classified(data, r, solid, p));
    if y == Height - r.sizeY {
      data' := CeilingCap(data', r, ceilingDraw);
    }
  }

  // ---------------------------------------------------------------------------
  // The highest solid block and the spawn search
  // ---------------------------------------------------------------------------

  function At(w: World, x: int, y: int, z: int): Material
  {
    Read(w, Vec3(x, y, z))
  }

  /**
   * The walk of `getHighestSolidBlock` below air at height y: step down; give
   * up at height 0 or on a liquid; go on through air; otherwise the answer is
   * the height just above the solid cell.
   */
  function WalkDown(w: World, x: int, z: int, y: int): (r: int)
    requires 1 <= y
    ensures r == -1 || 2 <= r <= y
    decreases y
  {
    if y - 1 == 0 || IsLiquid(At(w, x, y - 1, z)) then -1
    else if At(w, x, y - 1, z) == Air then WalkDown(w, x, z, y - 1)
    else y
  }

  /** The answer of `getHighestSolidBlock(world, x, z)`: -1 unless height 64 is air. */
  function HighestSolid(w: World, x: int, z: int): (r: int)
    ensures r == -1 || 2 <= r <= Height / 2
  {
    if At(w, x, Height / 2, z) != Air then -1 else WalkDown(w, x, z, Height / 2)
  }

  /** The cells y0..y1 of column (x, z), both included, are all air. */
  ghost predicate AirFrom(w: World, x: int, z: int, y0: int, y1: int)
  {
    forall yy :: y0 <= yy <= y1 ==> At(w, x, yy, z) == Air
  }

  /** A successful walk from height y lands just above a solid, non-liquid cell, with air up to y. */
  lemma {:induction false} WalkDownFound(w: World, x: int, z: int, y: int)
    requires 1 <= y && WalkDown(w, x, z, y) != -1
    ensures 2 <= WalkDown(w, x, z, y) <= y
    ensures AirFrom(w, x, z, WalkDown(w, x, z, y), y - 1)
    ensures var s := At(w, x, WalkDown(w, x, z, y) - 1, z); s != Air && !IsLiquid(s)
  {
    if At(w, x, y - 1, z) == Air {
      WalkDownFound(w, x, z, y - 1);
    }
  }

  /**
   * A failed walk from height y met a liquid under air, or found nothing but
   * air down to height 1.
   */
  lemma {:induction false} WalkDownFailed(w: World, x: int, z: int, y: int)
    requires 1 <= y && WalkDown(w, x, z, y) == -1
    ensures AirFrom(w, x, z, 1, y - 1)
         || exists h :: 1 <= h < y && IsLiquid(At(w, x, h, z)) && AirFrom(w, x, z, h + 1, y - 1)
  {
    if y - 1 == 0 {
    } else if IsLiquid(At(w, x, y - 1, z)) {
      assert AirFrom(w, x, z, y, y - 1);
    } else {
      WalkDownFailed(w, x, z, y - 1);
      if AirFrom(w, x, z, 1, y - 2) {
        assert AirFrom(w, x, z, 1, y - 1);
      } else {
        var h :| 1 <= h < y - 1 && IsLiquid(At(w, x, h, z)) && AirFrom(w, x, z, h + 1, y - 2);
        assert AirFrom(w, x, z, h + 1, y - 1);
      }
    }
  }

  /** A walk from height y cannot fail past a solid, non-liquid cell below which it never looks. */
  lemma {:induction false} WalkDownFindsSolid(w: World, x: int, z: int, y: int, h: int)
    requires 1 <= h < y
    requires AirFrom(w, x, z, h + 1, y - 1)
    requires At(w, x, h, z) != Air && !IsLiquid(At(w, x, h, z))
    ensures WalkDown(w, x, z, y) == h + 1
  {
    if y - 1 > h {
      assert At(w, x, y - 1, z) == Air;
      WalkDownFindsSolid(w, x, z, y - 1, h);
    }
  }

  /**
   * `getHighestSolidBlock` either fails with -1 or answers a height in 2..64
   * whose cell and every cell above it up to 64 are air, and whose cell below
   * is solid and not a liquid; and it fails exactly when height 64 is not
   * air, the column is air all the way down to height 1, or its first
   * non-air cell below 64 is a liquid.
   */
  lemma HighestSolidSpec(w: World, x: int, z: int)
    ensures var r := HighestSolid(w, x, z);
      r == -1 || (2 <= r <= 64 && AirFrom(w, x, z, r, 64)
                  && At(w, x, r - 1, z) != Air && !IsLiquid(At(w, x, r - 1, z)))
    ensures HighestSolid(w, x, z) == -1 <==>
      || At(w, x, 64, z) != Air
      || AirFrom(w, x, z, 1, 64)
      || exists h :: 1 <= h < 64 && IsLiquid(At(w, x, h, z)) && AirFrom(w, x, z, h + 1, 64)
  {
    if At(w, x, 64, z) == Air {
      if WalkDown(w, x, z, 64) != -1 {
        WalkDownFound(w, x, z, 64);
        var r := HighestSolid(w, x, z);
        assert AirFrom(w, x, z, r, 64);
        assert !AirFrom(w, x, z, 1, 64);
        forall h | 1 <= h < 64
          ensures IsLiquid(At(w, x, h, z)) ==> !AirFrom(w, x, z, h + 1, 64)
        {
          if h < r - 1 {
            assert At(w, x, r - 1, z) != Air;
          }
        }
      } else {
        WalkDownFailed(w, x, z, 64);
        if AirFrom(w, x, z, 1, 63) {
          assert AirFrom(w, x, z, 1, 64);
        } else {
          var h :| 1 <= h < 64 && IsLiquid(At(w, x, h, z)) && AirFrom(w, x, z, h + 1, 63);
          assert AirFrom(w, x, z, h + 1, 64);
        }
      }
    }
  }

  /** `getHighestSolidBlock(world, x, z)`: the downward walk from height 64. */
  method GetHighestSolidBlock(w: World, x: int, z: int) returns (r: int)
    ensures r == HighestSolid(w, x, z)
  {
    var y := Height / 2;
    if At(w, x, y, z) != Air {
      return -1;
    }
    while At(w, x, y, z) == Air
      invariant 1 <= y <= Height / 2
      invariant HighestSolid(w, x, z) == if At(w, x, y, z) == Air then WalkDown(w, x, z, y) else y + 1
      decreases y
    {
      y := y - 1;
      if y == 0 || IsLiquid(At(w, x, y, z)) {
        return -1;
      }
    }
    r := y + 1;
  }

  /** A point of the world: `new Point(world, x, y, z)`. */
  datatype SpawnPoint = SpawnPoint(x: real, y: real, z: real)

  /** The fallback of `getSafeSpawn` when every attempt fails. */
  const FallbackSpawn := SpawnPoint(0.0, 80.0, 0.0)

  /** The column tried at attempt i: both draws of `nextInt(256)` moved down by 127. */
  function AttemptX(xDraw: int -> int, i: int): int { xDraw(i) - 127 }
  function AttemptZ(zDraw: int -> int, i: int): int { zDraw(i) - 127 }

  /** Attempt i finds no solid block under air. */
  predicate AttemptFails(w: World, xDraw: int -> int, zDraw: int -> int, i: int)
  {
    HighestSolid(w, AttemptX(xDraw, i), AttemptZ(zDraw, i)) == -1
  }

  /** The spawn point attempt i proposes: half a block above its highest solid block. */
  function AttemptSpawn(w: World, xDraw: int -> int, zDraw: int -> int, i: int): SpawnPoint
  {
    var x := AttemptX(xDraw, i);
    var z := AttemptZ(zDraw, i);
    SpawnPoint(x as real, HighestSolid(w, x, z) as real + 0.5, z as real)
  }

  /**
   * `getSafeSpawn(world)`, with attempt i drawing xDraw(i) and zDraw(i): at
   * most 32 attempts; the point of the first attempt that succeeds, lying
   * over a column in -127..128 on both axes; otherwise (0, 80, 0).
   */
  method GetSafeSpawn(w: World, xDraw: int -> int, zDraw: int -> int) returns (p: SpawnPoint)
    requires forall i :: 0 <= i < 32 ==> 0 <= xDraw(i) < 256 && 0 <= zDraw(i) < 256
    ensures || (exists i :: 0 <= i < 32 && !AttemptFails(w, xDraw, zDraw, i)
                 && (forall j :: 0 <= j < i ==> AttemptFails(w, xDraw, zDraw, j))
                 && p == AttemptSpawn(w, xDraw, zDraw, i))
            || ((forall j :: 0 <= j < 32 ==> AttemptFails(w, xDraw, zDraw, j)) && p == FallbackSpawn)
    ensures p != FallbackSpawn ==> -127.0 <= p.x <= 128.0 && -127.0 <= p.z <= 128.0
  {
    var attempts := 0;
    while attempts < 32
      invariant 0 <= attempts <= 32
      invariant forall j :: 0 <= j < attempts ==> AttemptFails(w, xDraw, zDraw, j)
    {
      var x := xDraw(attempts) - 127;
      var z := zDraw(attempts) - 127;
      var y := GetHighestSolidBlock(w, x, z);
      if y != -1 {
        HighestSolidSpec(w, x, z);
        p := SpawnPoint(x as real, y as real + 0.5, z as real);
        assert p == AttemptSpawn(w, xDraw, zDraw, attempts);
        return;
      }
      attempts := attempts + 1;
    }
    p := FallbackSpawn;
  }

  /** `Chunk.BLOCKS.SIZE`: the width of a chunk in blocks. */
  const ChunkSize := 16

  /** `getSurfaceHeight(world, chunkX, chunkZ)`: a chunk-sized grid holding world height - 1 everywhere. */
  method GetSurfaceHeight(worldHeight: int, chunkX: int, chunkZ: int) returns (heights: array2<int>)
    ensures fresh(heights)
    ensures heights.Length0 == ChunkSize && heights.Length1 == ChunkSize
    ensures forall x, z :: 0 <= x < ChunkSize && 0 <= z < ChunkSize ==> heights[x, z] == worldHeight - 1
  {
    var height := worldHeight - 1;
    heights := new int[ChunkSize, ChunkSize];
    var x := 0;
    while x < ChunkSize
      invariant 0 <= x <= ChunkSize
      invariant forall i, j :: 0 <= i < x && 0 <= j < ChunkSize ==> heights[i, j] == height
    {
      var z := 0;
      while z < ChunkSize
        invariant 0 <= z <= ChunkSize
        invariant forall i, j :: 0 <= i < x && 0 <= j < ChunkSize ==> heights[i, j] == height
        invariant forall j :: 0 <= j < z ==> heights[x, j] == height
      {
        heights[x, z] := height;
        z := z + 1;
      }
      x := x + 1;
    }
  }
}
