# Vanilla structure pieces, map palette and nether terrain, in Dafny

This project models four parts of the Vanilla server plugin (`org.spout.vanilla`):

- **The structure-piece framework.** A piece holds a position, a yaw rotation and a rotation point. The model covers:
  - the local-to-world transform that the piece applies to every block it reads or writes;
  - the inclusive `BoundingBox` and its intersection test;
  - the single-block write;
  - the `fillDownwards` column walk;
  - the setters.
- **Three concrete pieces**: `StrongholdCorridor`, `FortressTurn` and `FortressBridgeIntersection`. For each one the model covers:
  - the randomised parameters;
  - the bounding box;
  - the placement test;
  - the block loops of `place()` that are visible in the source;
  - the successors returned by `getNextPieces()`: their anchors and rotation deltas;
  - the static weighted successor table.
- **`MapColorPalette`**. The model covers:
  - the 23-bit palette key;
  - the two-ids-per-byte packing loop of `generatePaletteFile`;
  - the unpacking in `getColor(int, int, int)`;
  - the `initialize` flag logic.
- **`NetherGenerator`**. The model covers:
  - the per-cell terrain classification in `generateTerrain`;
  - the bedrock floor and ceiling;
  - `getHighestSolidBlock`;
  - the bounded spawn search `getSafeSpawn`;
  - `getSurfaceHeight`.

## Modelling choices

**Geometry and the world**
- Coordinates are unbounded integers (`Geometry.Vec3`).
- Every rotation the pieces use is a yaw quarter turn about the Y axis. A rotation is therefore a count `k` in 0..3 (`Geometry.Quarter`), applied with the exact integer rotation matrix. One quarter turn (+90 degrees) maps (x, z) to (z, -x).
- `Quaternion.fromAngleDegAxis(d, 0, 1, 0).mul(rotation)` becomes the addition of counts modulo 4 (`Geometry.Compose`).
- The world and the terrain buffer are values of type `map<Vec3, Material>`. A cell the map does not hold reads as air.

**Pieces and their successors**
- `StructurePiece` is a class whose methods update its fields. Each concrete piece is a class that holds its `StructurePiece` as `piece` and adds its own fields: `length` and `startOfStronghold` for the corridor, `left` for the turn.
- The classes of the successors are not part of this model. `getNextPieces()` therefore returns values `Candidate(kind, frame, randomized)`. Each one records:
  - the successor's type;
  - its position, rotation and rotation point after the setters have run;
  - whether `randomize()` was called on it.
- `getNextPiece()` is defined in a superclass that is not part of this model. It is modelled as a nondeterministic choice of some type from the piece's table (`WeightedNext.GetNextPiece`).

**Random draws, noise and colour search**
- Every random draw is a parameter:
  - `nextInt(5)` for the corridor length;
  - `nextBoolean()` for the turn side;
  - one `nextInt(4)` per bedrock column;
  - one pair of `nextInt(256)` per spawn attempt.
- The noise value of a terrain cell is given only by its sign.
- The nearest map colour of each RGB colour is an input function.

**`MapColorPalette`**
- Palette bytes are `bv8`, and `byte` arithmetic is written out: sign extension is `Signed`, and the arithmetic shift is floor division by 16.
- The class's static state is modelled as the fields of one object.

## Model

| member | source | states |
|---|---|---|
| Geometry.RotateY | src/main/java/org/spout/vanilla/world/generator/structure/StructurePiece.java:160-162 | a yaw rotation never changes the height of a vector, and zero quarter turns leave it unchanged |
| Geometry.Rotate | src/main/java/org/spout/vanilla/world/generator/structure/StructurePiece.java:160-162 | `rotate` turns a vector about the rotation point: heights are kept, and no turn leaves the vector unchanged |
| Geometry.RotateYCases | src/main/java/org/spout/vanilla/world/generator/structure/StructurePiece.java:160-162 | the integer rotation matrix for each of the four quarter counts, written out |
| Geometry.FromYawDegrees | src/main/java/org/spout/vanilla/world/generator/nether/structure/fortress/FortressTurn.java:126-129 | a yaw angle that is a multiple of 90 degrees, negative angles included, gives a quarter count k with 90k equal to the angle modulo 360 |
| Geometry.YawQuarters | src/main/java/org/spout/vanilla/world/generator/nether/structure/fortress/FortressBridgeIntersection.java:123-128 | the angles the successors are turned by: +90 is one quarter, -90 is three quarters and 180 is two quarters |
| Geometry.RotateCompose | src/main/java/org/spout/vanilla/world/generator/nether/structure/fortress/FortressTurn.java:126-129 | rotating by the composite of `fromAngleDegAxis(delta).mul(rotation)` is rotating by `rotation` and then by `delta` |
| Geometry.Compose | src/main/java/org/spout/vanilla/world/generator/nether/structure/fortress/FortressTurn.java:126-129 | the quarter count of `fromAngleDegAxis(delta).mul(rotation)` is the sum of the two counts modulo 4 |
| Geometry.RotateAdd | src/main/java/org/spout/vanilla/world/generator/structure/StructurePiece.java:160-162 | a rotation is linear: it distributes over vector addition |
| Geometry.RotateInverse | src/main/java/org/spout/vanilla/world/generator/structure/StructurePiece.java:160-162 | every quarter turn has an inverse that undoes it, on either side |
| Geometry.Transform | src/main/java/org/spout/vanilla/world/generator/structure/StructurePiece.java:156-158 | `transform` shifts heights only by the piece's position |
| Geometry.Untransform | src/main/java/org/spout/vanilla/world/generator/structure/StructurePiece.java:156-162 | the local cell of a world cell: `transform` of it is that world cell, and its height is the world height less the position's |
| Geometry.TransformUntransform | src/main/java/org/spout/vanilla/world/generator/structure/StructurePiece.java:156-162 | every world cell is the image of a local cell |
| Geometry.UntransformTransform | src/main/java/org/spout/vanilla/world/generator/structure/StructurePiece.java:156-162 | `transform` is injective: the inverse gives back the local cell |
| Geometry.SameColumn | src/main/java/org/spout/vanilla/world/generator/structure/StructurePiece.java:156-162 | a world cell lies in the world column of local column (x, z) if and only if it comes from a local cell of that column |
| Geometry.UntransformLift | src/main/java/org/spout/vanilla/world/generator/structure/StructurePiece.java:156-162 | moving a world cell up or down its column keeps its local column and moves its local height by the same amount |
| Geometry.RotatePivotFixed | src/main/java/org/spout/vanilla/world/generator/structure/StructurePiece.java:160-162 | `rotate` maps the rotation point to itself |
| Geometry.IdentityTransform | src/main/java/org/spout/vanilla/world/generator/structure/StructurePiece.java:156-162 | with the identity rotation, whatever the rotation point, `transform(x, y, z)` is (x, y, z) plus the position |
| Geometry.TransformDown | src/main/java/org/spout/vanilla/world/generator/structure/StructurePiece.java:136-139 | `yy--` in local space is one step down in the world, whatever the rotation |
| Geometry.TransformShift | src/main/java/org/spout/vanilla/world/generator/structure/StructurePiece.java:156-162 | moving a local cell by e moves its world cell by e turned with the piece |
| Geometry.TransformAtOrigin | src/main/java/org/spout/vanilla/world/generator/structure/StructurePiece.java:156-162 | with the rotation point at the origin, `transform` is a rotation followed by the translation |
| Geometry.SuccessorFrame | src/main/java/org/spout/vanilla/world/generator/nether/structure/fortress/FortressTurn.java:124-130 | a successor placed at `position.add(rotate(anchor))` with the composed rotation has, as its local space, the parent's local space moved to the anchor and turned by the delta |
| BoundingBoxes.MakeBox | src/main/java/org/spout/vanilla/world/generator/structure/StructurePiece.java:215-218 | the constructor takes min and max component by component, each equal to one of the corners, so min <= max on every axis whatever the corner order |
| BoundingBoxes.XSize | src/main/java/org/spout/vanilla/world/generator/structure/StructurePiece.java:232-234 | `getXSize` is max.x - min.x and never negative |
| BoundingBoxes.YSize | src/main/java/org/spout/vanilla/world/generator/structure/StructurePiece.java:236-238 | `getYSize` is max.y - min.y and never negative |
| BoundingBoxes.ZSize | src/main/java/org/spout/vanilla/world/generator/structure/StructurePiece.java:240-242 | `getZSize` is max.z - min.z and never negative |
| BoundingBoxes.IntersectsIffSharedCell | src/main/java/org/spout/vanilla/world/generator/structure/StructurePiece.java:244-255 | `intersects` holds if and only if the two closed boxes share a lattice cell |
| BoundingBoxes.IntersectsSymmetric | src/main/java/org/spout/vanilla/world/generator/structure/StructurePiece.java:244-255 | `intersects` is symmetric |
| BoundingBoxes.IntersectsReflexive | src/main/java/org/spout/vanilla/world/generator/structure/StructurePiece.java:244-255 | every box intersects itself |
| BoundingBoxes.TouchingBoxesIntersect | src/main/java/org/spout/vanilla/world/generator/structure/StructurePiece.java:244-255 | boxes touching on an x face (the max-x plane of a is the min-x plane of b, with a cell in both) still intersect, both ways; the general case is IntersectsIffSharedCell |
| BoundingBoxes.GapSeparates | src/main/java/org/spout/vanilla/world/generator/structure/StructurePiece.java:244-255 | a gap on any one axis means the boxes do not intersect, both ways |
| BoundingBoxes.MakeBoxSymmetric | src/main/java/org/spout/vanilla/world/generator/structure/StructurePiece.java:257-264 | `new BoundingBox(a, b)` equals `new BoundingBox(b, a)`: same min and same max |
| BoundingBoxes.TransformedBox | src/main/java/org/spout/vanilla/world/generator/structure/StructurePiece.java:215-218 | the box of the transformed corners lo and hi holds exactly the images of the local cells lo..hi |
| BoundingBoxes.TransformedBoxSize | src/main/java/org/spout/vanilla/world/generator/structure/StructurePiece.java:228-242 | that box keeps the height of lo..hi; x and z are kept under an even number of quarter turns and swapped under an odd number |
| WeightedNext.GetNextPiece | src/main/java/org/spout/vanilla/world/generator/normal/structure/stronghold/StrongholdCorridor.java:101 | `getNextPiece()` returns a type listed in the piece's table |
| StructurePieces.StructurePiece.constructor | src/main/java/org/spout/vanilla/world/generator/structure/StructurePiece.java:50-56 | a new piece has the identity rotation and its rotation point at zero; its position is the origin |
| StructurePieces.StructurePiece.SetBlockMaterial | src/main/java/org/spout/vanilla/world/generator/structure/StructurePiece.java:79-82 | the world cell of the local cell gets the material, and every other cell keeps its material |
| StructurePieces.StructurePiece.Rotate | src/main/java/org/spout/vanilla/world/generator/structure/StructurePiece.java:160-162 | `rotate` keeps heights, is the identity for an unturned piece, and leaves the rotation point fixed |
| StructurePieces.StructurePiece.Transform | src/main/java/org/spout/vanilla/world/generator/structure/StructurePiece.java:156-158 | `transform` adds the position's height to the local height, and is one-to-one: the local cell is recovered from the world cell |
| StructurePieces.StructurePiece.GetAfterSet | src/main/java/org/spout/vanilla/world/generator/structure/StructurePiece.java:70-82 | `getBlockMaterial` of a local cell reads back what `setBlockMaterial` last wrote there, and a write leaves every other local cell's material as it was |
| StructurePieces.WriteCell | src/main/java/org/spout/vanilla/world/generator/structure/StructurePiece.java:79-82 | writing the image of local cell v changes exactly the world cell whose local cell is v |
| StructurePieces.StructurePiece.FillDownwards | src/main/java/org/spout/vanilla/world/generator/structure/StructurePiece.java:133-141 | the loop leaves the world that the column walk FillDown specifies, starting from the transformed start cell |
| StructurePieces.FillDepth | src/main/java/org/spout/vanilla/world/generator/structure/StructurePiece.java:133-141 | the walk replaces at most `limit` cells, and none when the limit is not positive |
| StructurePieces.FillDepthRun | src/main/java/org/spout/vanilla/world/generator/structure/StructurePiece.java:133-141 | every replaced cell was air or liquid, and the walk stopped either after `limit` cells or at the first cell that is neither |
| StructurePieces.FillDepthFrame | src/main/java/org/spout/vanilla/world/generator/structure/StructurePiece.java:133-141 | the walk looks only at its own column, at and below its start |
| StructurePieces.FillDownEffect | src/main/java/org/spout/vanilla/world/generator/structure/StructurePiece.java:133-141 | the walk writes the material into exactly the consecutive cells from the start downwards that it counts, and changes no other cell |
| StructurePieces.FillDownSolidStart | src/main/java/org/spout/vanilla/world/generator/structure/StructurePiece.java:136-137 | a start cell that is neither air nor liquid means no write at all |
| StructurePieces.ShortCounterInRange | src/main/java/org/spout/vanilla/world/generator/structure/StructurePiece.java:134-137 | the `short` counter, incremented with wrap-around, always stays in -32768..32767 |
| StructurePieces.AsWrittenLimitNeverStops | src/main/java/org/spout/vanilla/world/generator/structure/StructurePiece.java:134-137 | as written, with a limit of 32768 or more, the test `counter++ < limit` holds after any number of replaced cells |
| StructurePieces.StructurePiece.FillColumn | src/main/java/org/spout/vanilla/world/generator/nether/structure/fortress/FortressTurn.java:111 | one `fillDownwards` call of a support loop adds its local column to the columns already filled |
| StructurePieces.ColumnsFilledStep | src/main/java/org/spout/vanilla/world/generator/nether/structure/fortress/FortressTurn.java:109-113 | filling a column not filled before gives the fill that column would get on the untouched world, and leaves the other columns as they were |
| StructurePieces.ColumnsFilledBounds | src/main/java/org/spout/vanilla/world/generator/structure/StructurePiece.java:133-141 | every cell that a support loop changed lies in one of its columns, at most `limit` cells down from the top, and holds the fill material |
| StructurePieces.StructurePiece.SetPosition | src/main/java/org/spout/vanilla/world/generator/structure/StructurePiece.java:168-170 | the position becomes the given one, and the rotation and rotation point are unchanged |
| StructurePieces.StructurePiece.OffsetPosition | src/main/java/org/spout/vanilla/world/generator/structure/StructurePiece.java:172-174 | the position moves by exactly (x, y, z), and nothing else changes |
| StructurePieces.StructurePiece.SetRotation | src/main/java/org/spout/vanilla/world/generator/structure/StructurePiece.java:184-186 | the rotation becomes the given one, and nothing else changes |
| StructurePieces.StructurePiece.SetRotationPoint | src/main/java/org/spout/vanilla/world/generator/structure/StructurePiece.java:192-194 | the rotation point becomes the given one, and nothing else changes |
| StructurePieces.SuccessorCell | src/main/java/org/spout/vanilla/world/generator/normal/structure/stronghold/StrongholdCorridor.java:101-103 | a successor's local cell u is the parent's local cell anchor + RotateY(delta, u) |
| StructurePieces.GrowsAwayThroughFace | src/main/java/org/spout/vanilla/world/generator/normal/structure/stronghold/StrongholdCorridor.java:101-111 | a successor anchored past a face of the local box and turned to face away from it has no cell at local depth >= 0 inside the parent's bounding box |
| StrongholdCorridors.TubeWrite | src/main/java/org/spout/vanilla/world/generator/normal/structure/stronghold/StrongholdCorridor.java:66-82 | one write of the next cell in writing order, with its tube material, extends the finished prefix of the tube by one cell |
| StrongholdCorridors.TubeDone | src/main/java/org/spout/vanilla/world/generator/normal/structure/stronghold/StrongholdCorridor.java:65-83 | once every slice below the length is written, the whole tube is built |
| StrongholdCorridors.StrongholdCorridor.constructor | src/main/java/org/spout/vanilla/world/generator/normal/structure/stronghold/StrongholdCorridor.java:48-53 | a new corridor has length 4 and is not the start of a stronghold |
| StrongholdCorridors.StrongholdCorridor.CanPlaceInWorld | src/main/java/org/spout/vanilla/world/generator/normal/structure/stronghold/StrongholdCorridor.java:55-60 | `canPlace` holds if and only if no cell of the world box spanned by local (-1, -1, -1)..(5, 5, length + 1) is a liquid |
| StrongholdCorridors.StrongholdCorridor.CanPlace | src/main/java/org/spout/vanilla/world/generator/normal/structure/stronghold/StrongholdCorridor.java:55-60 | `canPlace` as the source states it over local coordinates; CanPlaceInWorld gives its meaning as a test of a world box |
| StrongholdCorridors.StrongholdCorridor.Place | src/main/java/org/spout/vanilla/world/generator/normal/structure/stronghold/StrongholdCorridor.java:62-84 | `place()` builds the tube: each local cell with x in 0..4, y in 0..4 and z in 0..length-1 holds air when 1 <= x, y <= 3 and stone brick otherwise; no other cell changes |
| StrongholdCorridors.StrongholdCorridor.Randomize | src/main/java/org/spout/vanilla/world/generator/normal/structure/stronghold/StrongholdCorridor.java:86-89 | the length becomes the draw plus 4, so it lies in 4..8; `startOfStronghold` is unchanged |
| StrongholdCorridors.StrongholdCorridor.SetLength | src/main/java/org/spout/vanilla/world/generator/normal/structure/stronghold/StrongholdCorridor.java:118-120 | a later `getLength` returns the length set, and the start flag is unchanged |
| StrongholdCorridors.StrongholdCorridor.SetStartOfStronghold | src/main/java/org/spout/vanilla/world/generator/normal/structure/stronghold/StrongholdCorridor.java:126-128 | a later `isStartOfStronghold` returns the flag set, and the length is unchanged |
| StrongholdCorridors.StrongholdCorridor.BoundingBoxSize | src/main/java/org/spout/vanilla/world/generator/normal/structure/stronghold/StrongholdCorridor.java:109-112 | the box is 4 high; it is 4 across and length - 1 long, with x and z swapped under an odd number of quarter turns |
| StrongholdCorridors.StrongholdCorridor.BoundingBoxIsTube | src/main/java/org/spout/vanilla/world/generator/normal/structure/stronghold/StrongholdCorridor.java:109-112 | the bounding box holds exactly the cells of the tube |
| StrongholdCorridors.UnmovedBox | src/main/java/org/spout/vanilla/world/generator/normal/structure/stronghold/StrongholdCorridor.java:109-112 | for a piece that has not been moved or turned, the box of local corners lo and hi is lo..hi itself |
| StrongholdCorridors.StrongholdCorridor.NewCorridorBox | src/main/java/org/spout/vanilla/world/generator/normal/structure/stronghold/StrongholdCorridor.java:109-112 | a new corridor, not moved or turned, spans (0, 0, 0)..(4, 4, 3) |
| StrongholdCorridors.StrongholdCorridor.GetBoundingBox | src/main/java/org/spout/vanilla/world/generator/normal/structure/stronghold/StrongholdCorridor.java:109-112 | the box of transform(0, 0, 0) and transform(4, 4, length - 1) has a y size of 4 (five layers) in every rotation, with its floor at the piece's height |
| StrongholdCorridors.StrongholdCorridor.PlacedTube | src/main/java/org/spout/vanilla/world/generator/normal/structure/stronghold/StrongholdCorridor.java:62-84 | after `place()` every tube cell holds its tube material, and no cell outside the bounding box has changed |
| StrongholdCorridors.StrongholdCorridor.ExitsOutside | src/main/java/org/spout/vanilla/world/generator/normal/structure/stronghold/StrongholdCorridor.java:94-105 | both successors grow away from the corridor: the next piece starts past the far end, and the portal room behind the near end |
| StrongholdCorridors.StrongholdCorridor.GetNextPieces | src/main/java/org/spout/vanilla/world/generator/normal/structure/stronghold/StrongholdCorridor.java:91-107 | one successor, or two at the start of a stronghold; the portal room comes first, at `rotate(4, 0, -1)` turned by 180 degrees; the last successor comes from the table, sits at `rotate(0, 0, length)` with the same rotation, and grows away; every successor is randomized |
| StrongholdCorridors.DefaultNextShape | src/main/java/org/spout/vanilla/world/generator/normal/structure/stronghold/StrongholdCorridor.java:40-47 | seven types, every weight positive, total weight 10; neither a corridor nor the portal room is in the table |
| FortressTurns.FortressTurn.constructor | src/main/java/org/spout/vanilla/world/generator/nether/structure/fortress/FortressTurn.java:52-56 | a new turn opens to the right (`left` is false) |
| FortressTurns.FortressTurn.CanPlace | src/main/java/org/spout/vanilla/world/generator/nether/structure/fortress/FortressTurn.java:58-61 | a turn can always be placed |
| FortressTurns.FortressTurn.Randomize | src/main/java/org/spout/vanilla/world/generator/nether/structure/fortress/FortressTurn.java:116-119 | `left` becomes the boolean draw, and nothing else may change |
| FortressTurns.FortressTurn.GetBoundingBox | src/main/java/org/spout/vanilla/world/generator/nether/structure/fortress/FortressTurn.java:135-138 | the box is 4 by 6 by 4 in every rotation, whatever `left` is, and its floor is at the piece's height |
| FortressTurns.FortressTurn.BoundingBoxCells | src/main/java/org/spout/vanilla/world/generator/nether/structure/fortress/FortressTurn.java:135-138 | the box holds exactly the images of the local cells (0, 0, 0)..(4, 6, 4) |
| FortressTurns.FortressTurn.FillToGround | src/main/java/org/spout/vanilla/world/generator/nether/structure/fortress/FortressTurn.java:108-113 | every local column (x, z) in 0..4 x 0..4 is filled with nether brick from local height -1 downwards, at most 50 cells, as `fillDownwards` fills it; every other cell is unchanged |
| FortressTurns.FortressTurn.SupportsUnderFloor | src/main/java/org/spout/vanilla/world/generator/nether/structure/fortress/FortressTurn.java:108-113 | every cell the supports change now holds nether brick, lies at most 50 cells below the bounding box, and lies under the box's floor |
| FortressTurns.FortressTurn.ExitsOutside | src/main/java/org/spout/vanilla/world/generator/nether/structure/fortress/FortressTurn.java:124-130 | both possible successors grow away from the turn |
| FortressTurns.FortressTurn.GetNextPieces | src/main/java/org/spout/vanilla/world/generator/nether/structure/fortress/FortressTurn.java:121-133 | exactly one randomized successor from the table: at `rotate(5, 0, 4)` turned +90 degrees when `left`, otherwise at `rotate(-1, 0, 0)` turned -90 degrees; it grows away from the turn |
| FortressTurns.DefaultNextWeights | src/main/java/org/spout/vanilla/world/generator/nether/structure/fortress/FortressTurn.java:42-51 | nine types, every weight positive, total weight 36 |
| FortressTurns.DefaultNextChoices | src/main/java/org/spout/vanilla/world/generator/nether/structure/fortress/FortressTurn.java:42-51 | the corridor has the largest weight, and a turn never directly follows a turn |
| FortressBridgeIntersections.FortressBridgeIntersection.constructor | src/main/java/org/spout/vanilla/world/generator/nether/structure/fortress/FortressBridgeIntersection.java:50-52 | a new intersection has a new piece in the initial frame |
| FortressBridgeIntersections.FortressBridgeIntersection.CanPlace | src/main/java/org/spout/vanilla/world/generator/nether/structure/fortress/FortressBridgeIntersection.java:54-57 | an intersection can always be placed |
| FortressBridgeIntersections.FortressBridgeIntersection.Randomize | src/main/java/org/spout/vanilla/world/generator/nether/structure/fortress/FortressBridgeIntersection.java:109-111 | `randomize` draws nothing and changes no field: the piece's position, rotation and rotation point are as before |
| FortressBridgeIntersections.FortressBridgeIntersection.GetBoundingBox | src/main/java/org/spout/vanilla/world/generator/nether/structure/fortress/FortressBridgeIntersection.java:134-137 | the box is 18 by 7 by 18 in every rotation, with its floor three cells below the piece's height |
| FortressBridgeIntersections.FortressBridgeIntersection.BoundingBoxCells | src/main/java/org/spout/vanilla/world/generator/nether/structure/fortress/FortressBridgeIntersection.java:134-137 | the box holds exactly the images of the local cells (-7, -3, 0)..(11, 4, 18) |
| FortressBridgeIntersections.FortressBridgeIntersection.BuildFirstPillars | src/main/java/org/spout/vanilla/world/generator/nether/structure/fortress/FortressBridgeIntersection.java:88-94 | every local column with x in 0..4 and z in {0, 1, 2, 16, 17, 18} is filled with nether brick from local height -4 downwards, at most 50 cells; every other cell is unchanged |
| FortressBridgeIntersections.FortressBridgeIntersection.BuildFirstPillarRow | src/main/java/org/spout/vanilla/world/generator/nether/structure/fortress/FortressBridgeIntersection.java:90-93 | one pass of the outer loop adds column pairs (xx, zz) and (xx, 18 - zz), for zz in 0..2, to the columns already filled |
| FortressBridgeIntersections.FortressBridgeIntersection.BuildSecondPillars | src/main/java/org/spout/vanilla/world/generator/nether/structure/fortress/FortressBridgeIntersection.java:100-106 | every local column with x in {-7, -6, -5, 9, 10, 11} and z in 7..11 is filled the same way; every other cell is unchanged |
| FortressBridgeIntersections.FortressBridgeIntersection.BuildSecondPillarRow | src/main/java/org/spout/vanilla/world/generator/nether/structure/fortress/FortressBridgeIntersection.java:102-105 | one pass of the outer loop adds column pairs (xx, zz) and (4 - xx, zz), for zz in 7..11, to the columns already filled |
| FortressBridgeIntersections.FortressBridgeIntersection.PillarsUnderBridge | src/main/java/org/spout/vanilla/world/generator/nether/structure/fortress/FortressBridgeIntersection.java:88-106 | every cell either pillar loop changes now holds nether brick, lies at most 50 cells below the bounding box, and lies under the box's floor |
| FortressBridgeIntersections.FortressBridgeIntersection.ExitsOutside | src/main/java/org/spout/vanilla/world/generator/nether/structure/fortress/FortressBridgeIntersection.java:113-132 | all three successors grow away from the intersection |
| FortressBridgeIntersections.FortressBridgeIntersection.GetNextPieces | src/main/java/org/spout/vanilla/world/generator/nether/structure/fortress/FortressBridgeIntersection.java:113-132 | exactly three randomized successors from the table, in this order: front at `rotate(0, 0, 19)` with the same rotation; right at `rotate(-8, 0, 7)` turned -90 degrees; left at `rotate(12, 0, 11)` turned +90 degrees. Each grows away |
| FortressBridgeIntersections.DefaultNextWeights | src/main/java/org/spout/vanilla/world/generator/nether/structure/fortress/FortressBridgeIntersection.java:41-48 | seven types, every weight positive, total weight 25 |
| FortressBridgeIntersections.DefaultNextChoices | src/main/java/org/spout/vanilla/world/generator/nether/structure/fortress/FortressBridgeIntersection.java:41-48 | the bridge has the largest weight, and an intersection never directly follows an intersection |
| MapColorPalettes.PaletteKey | src/main/java/org/spout/vanilla/map/MapColorPalette.java:129-131 | every key is a valid index into the 128 * 256 * 256 palette |
| MapColorPalettes.KeyFields | src/main/java/org/spout/vanilla/map/MapColorPalette.java:130 | a key gives back r & 0xFF, g & 0xFF and b & 0x7F |
| MapColorPalettes.KeyEqual | src/main/java/org/spout/vanilla/map/MapColorPalette.java:130 | two colours share a key if and only if they agree on red and green modulo 256 and on blue modulo 128, so b and b ^ 0x80 share one slot |
| MapColorPalettes.KeyFieldRanges | src/main/java/org/spout/vanilla/map/MapColorPalette.java:130 | the fields of a slot are in range: red and green 0..255, blue 0..127 |
| MapColorPalettes.KeyOfFields | src/main/java/org/spout/vanilla/map/MapColorPalette.java:130 | every slot is the key of the colour its fields name |
| MapColorPalettes.KeysCoverPalette | src/main/java/org/spout/vanilla/map/MapColorPalette.java:129-131 | every palette slot is the key of some colour with blue below 128 |
| MapColorPalettes.PaletteKeyInRange | src/main/java/org/spout/vanilla/map/MapColorPalette.java:130 | on in-range components the masks only drop bit 7 of blue |
| MapColorPalettes.KeyInjective | src/main/java/org/spout/vanilla/map/MapColorPalette.java:130 | the key is injective over 0..255 x 0..255 x 0..127 |
| MapColorPalettes.PaletteStep | src/main/java/org/spout/vanilla/map/MapColorPalette.java:106-111 | one iteration ORs the colour's contribution into its slot, and that slot alone changes |
| MapColorPalettes.Store | src/main/java/org/spout/vanilla/map/MapColorPalette.java:106-111 | the loop body ORs the id into the slot unshifted when blue bit 7 is set, and shifted left by four otherwise |
| MapColorPalettes.FillRow | src/main/java/org/spout/vanilla/map/MapColorPalette.java:88-112 | the innermost loop handles all 256 blue values of one (r, g) |
| MapColorPalettes.GeneratePalette | src/main/java/org/spout/vanilla/map/MapColorPalette.java:77-114 | starting from an all-zero palette, each slot ends up holding the id of its bit-7-clear colour in the high nibble, ORed with the id of its bit-7-set colour |
| MapColorPalettes.PaletteDone | src/main/java/org/spout/vanilla/map/MapColorPalette.java:84-114 | once every colour is handled, each slot packs the ids of its two colours |
| MapColorPalettes.AsWrittenUnpackMismatch | src/main/java/org/spout/vanilla/map/MapColorPalette.java:140-147 | the masks as written misread packed slots: a high id of 1 read through the low side gives 16, and a high id of 8 read through the high side gives -8 |
| MapColorPalettes.AsWrittenUnpack | src/main/java/org/spout/vanilla/map/MapColorPalette.java:140-147 | the as-written masks read 0..63 through the low side and -8..7 through the high side, negative exactly when bit 7 of the slot is set |
| MapColorPalettes.AsWrittenChar | src/main/java/org/spout/vanilla/map/MapColorPalette.java:140-147 | for every slot packing two ids below 16, the low read is the low id plus 16 times bits 0 and 1 of the high id, and the high read is the high id less 16 when it is 8 or more |
| MapColorPalettes.Unpack | src/main/java/org/spout/vanilla/map/MapColorPalette.java:140-147 | the corrected read gives an id below 16 |
| MapColorPalettes.UnpackPacked | src/main/java/org/spout/vanilla/map/MapColorPalette.java:107-111 | ids below 16, packed two to a byte, read back unchanged through the corrected masks |
| MapColorPalettes.GeneratedRoundTrip | src/main/java/org/spout/vanilla/map/MapColorPalette.java:106-146 | over the palette that generation produces, the corrected read at the key of (r, g, b) gives back the nearest id of (r, g, b), with components taken modulo 256 |
| MapColorPalettes.MapColorPalette.constructor | src/main/java/org/spout/vanilla/map/MapColorPalette.java:40-42 | the palette starts with 128 * 256 * 256 zero bytes, not initialized |
| MapColorPalettes.MapColorPalette.Initialize | src/main/java/org/spout/vanilla/map/MapColorPalette.java:44-51 | while `canLoad` is false, `initialize` changes neither the flag nor the palette |
| MapColorPalettes.MapColorPalette.GetColor | src/main/java/org/spout/vanilla/map/MapColorPalette.java:140-147 | the corrected `getColor` gives an id below 16 |
| MapColorPalettes.MapColorPalette.UnloadedColorIsZero | src/main/java/org/spout/vanilla/map/MapColorPalette.java:44-51 | while nothing is loaded, every colour maps to id 0, both as written and corrected |
| MapColorPalettes.MapColorPalette.LoadedColorRoundTrip | src/main/java/org/spout/vanilla/map/MapColorPalette.java:140-147 | over a loaded generated palette, the corrected `getColor` gives back each colour's nearest id |
| MapColorPalettes.MapColorPalette.GetColorAsWritten | src/main/java/org/spout/vanilla/map/MapColorPalette.java:140-147 | `getColor` as written returns 0..63 for a colour with blue bit 7 set and -8..7 otherwise |
| MapColorPalettes.MapColorPalette.LoadedColorAsWritten | src/main/java/org/spout/vanilla/map/MapColorPalette.java:140-147 | over a loaded generated palette, the value `getColor` as written returns for every colour, and that it equals the nearest id if and only if the partner id is a multiple of 4 (blue bit 7 set) or the id is below 8 (bit 7 clear) |
| NetherGenerators.Clamp | src/main/java/org/spout/vanilla/plugin/world/generator/nether/NetherGenerator.java:103 | the clamped size lies in 0..128; an in-range size is unchanged, and one out of range becomes the nearer bound |
| NetherGenerators.Generated | src/main/java/org/spout/vanilla/plugin/world/generator/nether/NetherGenerator.java:107-149 | the cell specification: bedrock exactly where a laid cap reaches; otherwise, in the region, netherrack if and only if the noise is not negative, never air at or below sea level 31, and never lava above it; outside the region and the caps the cell is unchanged |
| NetherGenerators.CapDepths | src/main/java/org/spout/vanilla/plugin/world/generator/nether/NetherGenerator.java:133-145 | each cap is one to four cells deep: the floor covers height 0 and stays below 4, and the ceiling covers 127 and stays at or above 124 |
| NetherGenerators.ClassifyWrite | src/main/java/org/spout/vanilla/plugin/world/generator/nether/NetherGenerator.java:118-126 | one write of the classification loop classifies the next cell in loop order, and only that cell |
| NetherGenerators.Classify | src/main/java/org/spout/vanilla/plugin/world/generator/nether/NetherGenerator.java:107-129 | every cell of the region gets its terrain material, and every other cell is unchanged |
| NetherGenerators.TerrainCell | src/main/java/org/spout/vanilla/plugin/world/generator/nether/NetherGenerator.java:118-126 | a cell is netherrack if and only if the noise is non-negative; otherwise it is lava at or below sea level and air above it |
| NetherGenerators.FloorCap | src/main/java/org/spout/vanilla/plugin/world/generator/nether/NetherGenerator.java:131-138 | each column gets bedrock at exactly heights 0 up to its depth, the depth excluded, overwriting what was there; nothing else changes |
| NetherGenerators.CeilingCap | src/main/java/org/spout/vanilla/plugin/world/generator/nether/NetherGenerator.java:141-148 | each column gets bedrock at exactly heights 128 - depth up to 127; nothing else changes |
| NetherGenerators.GenerateTerrain | src/main/java/org/spout/vanilla/plugin/world/generator/nether/NetherGenerator.java:96-150 | nothing changes when y >= 128; otherwise the buffer is exactly Generated for the region with its height clamped, the floor laid when y == 0, and the ceiling laid when y == 128 - sizeY |
| NetherGenerators.WalkDownFound | src/main/java/org/spout/vanilla/plugin/world/generator/nether/NetherGenerator.java:175-181 | a successful walk lands just above a cell that is neither air nor liquid, with nothing but air up to its start |
| NetherGenerators.WalkDownFailed | src/main/java/org/spout/vanilla/plugin/world/generator/nether/NetherGenerator.java:175-179 | a failed walk found only air down to height 1, or met a liquid directly under air |
| NetherGenerators.WalkDownFindsSolid | src/main/java/org/spout/vanilla/plugin/world/generator/nether/NetherGenerator.java:175-181 | below air, the walk stops just above the first solid, non-liquid cell |
| NetherGenerators.HighestSolidSpec | src/main/java/org/spout/vanilla/plugin/world/generator/nether/NetherGenerator.java:170-182 | the result is -1 or a height in 2..64, with air from it up to 64 and a solid, non-liquid cell below it; it is -1 if and only if cell 64 is not air, the column is all air down to 1, or the first non-air cell below 64 is a liquid |
| NetherGenerators.WalkDown | src/main/java/org/spout/vanilla/plugin/world/generator/nether/NetherGenerator.java:175-181 | the downward walk from y returns -1 or a height in 2..y |
| NetherGenerators.HighestSolid | src/main/java/org/spout/vanilla/plugin/world/generator/nether/NetherGenerator.java:170-182 | `getHighestSolidBlock` returns -1 or a height in 2..64 |
| NetherGenerators.GetHighestSolidBlock | src/main/java/org/spout/vanilla/plugin/world/generator/nether/NetherGenerator.java:170-182 | the loop returns what the column walk HighestSolid specifies |
| NetherGenerators.GetSafeSpawn | src/main/java/org/spout/vanilla/plugin/world/generator/nether/NetherGenerator.java:157-168 | at most 32 attempts: the result is the point of the first successful attempt, at its height plus 0.5, over a column in -127..128 on both axes; if every attempt fails, the result is (0, 80, 0) |
| NetherGenerators.GetSurfaceHeight | src/main/java/org/spout/vanilla/plugin/world/generator/nether/NetherGenerator.java:185-194 | a new 16 by 16 grid with every entry equal to the world height minus 1 |

## Left out

- The float transform: the `Quaternionf`/`Matrix3f` float arithmetic and `.round()` of `rotate` and `transform` are replaced by exact integer quarter-turn yaw. This is the modelling assumption for every rotation the modelled pieces use: +90, -90 and 180 degrees.
- The directional and attachable fix-ups after a write in `setBlockMaterial`, and `placeDoor`, `attachMaterial` and `placeObject`. They depend on material classes and on float yaw arithmetic in `BlockFace.fromYaw`, none of which is part of this model.
- The probabilistic `setBlockMaterial(float odd, …)`: its float draw is not modelled.
- `getBlock`, and the block `data` argument of the writes: a cell holds only a material.
- `getRandom`, `getParent` and `Point.invalid`: the modelled pieces start at the origin, and the parent structure is not modelled.
- `BoundingBox.hashCode`, and `getSize` as a vector (the three scalar sizes are modelled).
- `BoundingBox` corners are integer lattice cells, not floats.
- The `place()` recipes of `FortressTurn` and `FortressBridgeIntersection`, apart from their fill-down loops. They run through `PieceCuboidBuilder` and `SimpleBlockMaterialPicker`, which are not part of this model.
- `intersectsLiquids` is not part of this model. The corridor's `canPlace` is modelled as "no cell of the local box (-1, -1, -1)..(5, 5, length + 1) is a liquid".
- The structure growth loop, `Structure`, `WeightedNextStructurePiece` and the weighted draw of `WeightedNextPieceCache`. `getNextPiece()` is modelled only as returning some type from the table.
- The successor pieces' own classes. `getNextPieces()` returns their type, frame and whether they were randomized.
- `FortressBridgeIntersection.randomize` has no state to change. The method has no `modifies` clause, and so it changes nothing.
- Java's `Random`: every draw is a parameter whose range the source's call guarantees. The floor and ceiling caps draw from one `Random` in sequence; the model gives each cap its own draw function.
- The Perlin/ScalePoint noise, `WorldGeneratorUtils.fastNoise` and the double-valued `cubic` smoothing: a cell's noise value is given only by its sign.
- The bedrock caps when the buffer is shallower than a cap: the source would write outside `CuboidBlockMaterialBuffer`, whose bounds are not modelled.
- The order in which the terrain loops write: only the buffer they leave is stated.
- `MathHelper.clamp` is not part of this model and is assumed to clamp in the usual way.
- `GetSafeSpawn`: the world is passed in, a point's world is not recorded, and its coordinates are reals carrying the `float` value `y + 0.5f`.
- `GetSurfaceHeight` takes the world height as a parameter. `Chunk.BLOCKS.SIZE` is 16.
- `registerBiomes`, `getName` and the other registration and naming wrappers.
- Palette file I/O (GZIP, the resource stream and its error handling), the floating-point nearest-colour search, `getColor(float, float, float)` and `MapColor.getById`. The nearest id of each colour is an input function, taken as its low eight bits.
- `MapColorPalette` is static in the source; here its state is one object.
- The resource-loading branch of `initialize` is unreachable while `canLoad` is false, so it is not modelled.
- MapColorPalettes.MapColorPalette.GetColor: its own contract states only the id range; the round trip with generation is stated in LoadedColorRoundTrip and GeneratedRoundTrip, and it holds for ids below 16.
- StrongholdCorridors.StrongholdCorridor.BoundingBoxSize: stated for lengths of at least 1, where the box corners are in order.
- StrongholdCorridors.StrongholdCorridor.ExitsOutside: stated for lengths of at least 1. `GetNextPieces` promises it growing away only then, because a shorter corridor has a degenerate box.
- StructurePieces.StructurePiece.FillDownwards: modelled with an unbounded counter, the corrected behaviour. The source's `short` counter is modelled separately (see Findings).
- GroundAttachable, Bat and Squid are not part of this model: they are wiring with no logic.

## Findings

| source | as written | input that shows it | evidently intended | confidence | as-written member | corrected member |
|---|---|---|---|---|---|---|
| src/main/java/org/spout/vanilla/world/generator/structure/StructurePiece.java:134-137 | the counter of `fillDownwards` is a `short`, so `counter++` wraps from 32767 to -32768 and `counter++ < limit` stays true for any limit of 32768 or more | `limit = 40000` over a column of more than 32768 air cells: the limit never ends the walk | at most `limit` cells are replaced, for every `int` limit | medium (not executed; every modelled caller passes 50) | StructurePieces.AsWrittenLimitNeverStops | StructurePieces.FillDepth |
| src/main/java/org/spout/vanilla/map/MapColorPalette.java:140-147 | `getColor` reads the low side with `color & 0x3F`, which keeps two bits of the high nibble. It reads the high side with `color >> 4` on the sign-extended `byte`, which is negative for high ids of 8 and above | slot `PackedSlot(1, 0)` = 0x10 read for a colour with blue bit 7 set gives 16, not 0; slot `PackedSlot(8, 0)` = 0x80 read for its other colour gives -8, not 8 | each read gives back the id that generation packed into that nibble, as `& 0x0F` and `(color >> 4) & 0x0F` would | medium (not executed; ids of 16 and above do not fit a nibble either way) | MapColorPalettes.AsWrittenUnpackMismatch | MapColorPalettes.GeneratedRoundTrip |
