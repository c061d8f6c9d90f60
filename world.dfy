/**
 * The voxel world as the pieces and the terrain generator see it: a map from
 * integer cells to block materials. A cell that the map does not hold reads
 * as air.
 */
module Worlds {
  import opened Geometry

  datatype Material =
    | Air
    | Water
    | Lava
    | StoneBrick
    | NetherBrick
    | NetherBrickFence
    | Netherrack
    | Bedrock
    | Other(id: int)

  /** `material instanceof Liquid`. */
  predicate IsLiquid(m: Material)
  {
    m == Water || m == Lava
  }

  /** The cells `fillDownwards` replaces: air or a liquid. */
  predicate Replaceable(m: Material)
  {
    m == Air || IsLiquid(m)
  }

  type World = map<Vec3, Material>

  function Read(w: World, p: Vec3): Material
  {
    if p in w then w[p] else Air
  }
}
