/**
 * The weighted successor tables of branching pieces (`WeightedNextPieceCache`)
 * and the choice of a successor type from one. How the choice is drawn is not
 * part of this model: `GetNextPiece` may return any type the table lists.
 */
module WeightedNext {

  /** The piece classes that the modelled pieces name. */
  datatype PieceType =
    | StrongholdCorridor
    | StrongholdLargeIntersection
    | StrongholdIntersection
    | StrongholdRoom
    | StrongholdSpiralStaircase
    | StrongholdPrison
    | StrongholdTurn
    | StrongholdStaircase
    | StrongholdPortalRoom
    | FortressTurn
    | FortressBridgeIntersection
    | FortressBlazeBalcony
    | FortressNetherWartStairs
    | FortressStaircase
    | FortressRoom
    | FortressStairRoom
    | FortressBalconyIntersection
    | FortressGateIntersection
    | FortressIntersection
    | FortressCorridor
    | FortressBridge

  datatype Entry = Entry(kind: PieceType, weight: int)

  /** Entries in the order of the `add(type, weight)` calls. */
  type Table = seq<Entry>

  function TotalWeight(t: Table): int
  {
    if t == [] then 0 else t[0].weight + TotalWeight(t[1..])
  }

  function Kinds(t: Table): set<PieceType>
  {
    set e | e in t :: e.kind
  }

  /** At least one entry, and every weight positive. */
  predicate WellFormed(t: Table)
  {
    |t| > 0 && forall i :: 0 <= i < |t| ==> t[i].weight > 0
  }

  /** Every entry's weight is at most that of the entry for `kind`, which is in the table. */
  predicate Heaviest(t: Table, kind: PieceType)
  {
    exists i :: 0 <= i < |t| && t[i].kind == kind &&
      forall j :: 0 <= j < |t| ==> t[j].weight <= t[i].weight
  }

  /** `getNextPiece()`: some type from the table (the weighted draw is not modelled). */
  method GetNextPiece(t: Table) returns (kind: PieceType)
    requires |t| > 0
    ensures kind in Kinds(t)
  {
    var i :| 0 <= i < |t|;
    kind := t[i].kind;
  }
}
