/**
 * The tile grid of one level: `gridSize * gridSize` tiles, all of the base
 * colour except the one at a randomly chosen index. Colours themselves are
 * not modelled, only which tile carries the different one.
 */
module Grid {
  import opened Settings

  datatype TileColor = BaseColor | DifferentColor

  /** Number of tiles of a square grid (`gridSize ** 2`). */
  function Cells(gridSize: nat): nat
  {
    gridSize * gridSize
  }

  /**
   * The grid `generateTiles` builds once the random index `diffIndex`
   * (drawn from `[0, gridSize ** 2)`) is fixed.
   */
  function GenerateTiles(gridSize: nat, diffIndex: nat): (tiles: seq<TileColor>)
    requires diffIndex < Cells(gridSize)
    ensures |tiles| == Cells(gridSize)
    ensures OddAt(tiles, diffIndex)
  {
    seq(Cells(gridSize), i => if i == diffIndex then DifferentColor else BaseColor)
  }

  /** Tile `k` is the different one and no other tile is. */
  predicate OddAt(tiles: seq<TileColor>, k: nat)
  {
    k < |tiles| && forall i :: 0 <= i < |tiles| ==> (tiles[i] == DifferentColor <==> i == k)
  }

  /** How many tiles carry the different colour. */
  function CountDifferent(tiles: seq<TileColor>): nat
  {
    if tiles == [] then 0
    else (if tiles[0] == DifferentColor then 1 else 0) + CountDifferent(tiles[1..])
  }

  /** A well-formed grid for a given side length: the right size, exactly one odd tile. */
  predicate ValidGrid(tiles: seq<TileColor>, gridSize: nat)
  {
    |tiles| == Cells(gridSize) && CountDifferent(tiles) == 1
  }

  lemma {:induction false} NoneDifferent(tiles: seq<TileColor>)
    requires forall i :: 0 <= i < |tiles| ==> tiles[i] == BaseColor
    ensures CountDifferent(tiles) == 0
  {
    if tiles != [] {
      NoneDifferent(tiles[1..]);
    }
  }

  /** A grid with its only different tile at `k` counts exactly one different tile. */
  lemma {:induction false} OneDifferent(tiles: seq<TileColor>, k: nat)
    requires OddAt(tiles, k)
    ensures CountDifferent(tiles) == 1
  {
    if k == 0 {
      NoneDifferent(tiles[1..]);
    } else {
      OneDifferent(tiles[1..], k - 1);
    }
  }

  /** Every difficulty's grid has at least four tiles. */
  lemma GridHasAtLeastFourTiles(d: Difficulty)
    ensures Cells(GridSize(d)) >= 4
  {
  }

  /** The grid generated for a level is well formed: `gridSize ** 2 >= 4` tiles, one of them odd, at the chosen index. */
  lemma GeneratedGridIsValid(d: Difficulty, diffIndex: nat)
    requires diffIndex < Cells(GridSize(d))
    ensures ValidGrid(GenerateTiles(GridSize(d), diffIndex), GridSize(d))
    ensures |GenerateTiles(GridSize(d), diffIndex)| >= 4
    ensures GenerateTiles(GridSize(d), diffIndex)[diffIndex] == DifferentColor
  {
    OneDifferent(GenerateTiles(GridSize(d), diffIndex), diffIndex);
  }
}
