/**
 * The board as a matrix of spaces indexed [row][cell], with positions on it.
 * Position.java is not part of this model; positions are pairs of indices on
 * the 8 x 8 grid.
 */
module Boards {
  import opened Spaces

  const ROWS: int := 8
  const CELLS: int := 8

  type Coord = x: int | 0 <= x < 8

  datatype Position = Position(row: Coord, cell: Coord)

  type Grid = seq<seq<Square>>

  /** Exactly ROWS rows of CELLS spaces each. */
  predicate IsGrid(g: Grid) {
    |g| == ROWS && forall r :: 0 <= r < ROWS ==> |g[r]| == CELLS
  }

  function At(g: Grid, p: Position): Square
    requires IsGrid(g)
  {
    g[p.row][p.cell]
  }

  /** The board with the space at `p` replaced and every other space kept. */
  function Put(g: Grid, p: Position, s: Square): (h: Grid)
    requires IsGrid(g)
    ensures IsGrid(h) && At(h, p) == s
    ensures forall q: Position :: q != p ==> At(h, q) == At(g, q)
  {
    g[p.row := g[p.row][p.cell := s]]
  }
}
