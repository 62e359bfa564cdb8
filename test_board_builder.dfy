/**
 * TestBoardBuilder.java: builds the default 8 x 8 board row by row, caches it,
 * and lets tests place pieces on it.
 */
module TestBoards {
  import opened Options
  import opened Pieces
  import opened Spaces
  import opened Boards

  const WHITE_BORDER_INDEX: int := 2
  const RED_BORDER_INDEX: int := 5

  /**
   * `buildSpace`: an INVALID space when the flag says so; otherwise a white
   * single up to row WHITE_BORDER_INDEX, a red single from row
   * RED_BORDER_INDEX on, and an OPEN space in between.
   */
  function BuildSpace(rowId: int, cellId: int, invalidSpace: bool): (s: Square)
    ensures Consistent(s) && s.cellIdx == cellId
    ensures s.state == INVALID <==> invalidSpace
    ensures !invalidSpace && rowId <= WHITE_BORDER_INDEX ==> s.piece == Some(Piece(SINGLE, WHITE))
    ensures !invalidSpace && rowId >= RED_BORDER_INDEX ==> s.piece == Some(Piece(SINGLE, RED))
    ensures !invalidSpace && WHITE_BORDER_INDEX < rowId < RED_BORDER_INDEX ==> s.state == OPEN && s.piece.None?
  {
    if invalidSpace then SquareOfState(cellId, INVALID)
    else if rowId <= WHITE_BORDER_INDEX then SquareOfPiece(cellId, Some(Piece(SINGLE, WHITE)))
    else if rowId >= RED_BORDER_INDEX then SquareOfPiece(cellId, Some(Piece(SINGLE, RED)))
    else SquareOfState(cellId, OPEN)
  }

  /** Row `rowId` of the default board: the space at cell c is invalid iff rowId + c is even. */
  function StartingRow(rowId: int): seq<Square> {
    seq(CELLS, c => BuildSpace(rowId, c, (rowId + c) % 2 == 0))
  }

  /** The default board. */
  function StartingGrid(): Grid {
    seq(ROWS, r => StartingRow(r))
  }

  /**
   * The layout of the default board: exactly 8 rows of 8 spaces; the space at
   * (r, c) has cell index c, is INVALID iff r + c is even, and otherwise holds
   * a white single in rows 0-2, a red single in rows 5-7, and nothing in rows 3-4.
   */
  lemma StartingGridLayout(r: int, c: int)
    requires 0 <= r < ROWS && 0 <= c < CELLS
    ensures IsGrid(StartingGrid())
    ensures var s := StartingGrid()[r][c];
      && Consistent(s)
      && s.cellIdx == c
      && (s.state == INVALID <==> (r + c) % 2 == 0)
      && (s.state != INVALID && r <= 2 ==> s.state == OCCUPIED && s.piece == Some(Piece(SINGLE, WHITE)))
      && (s.state != INVALID && r >= 5 ==> s.state == OCCUPIED && s.piece == Some(Piece(SINGLE, RED)))
      && (s.state != INVALID && 3 <= r <= 4 ==> s.state == OPEN && s.piece.None?)
  {
    assert StartingGrid()[r] == StartingRow(r);
    assert StartingRow(r)[c] == BuildSpace(r, c, (r + c) % 2 == 0);
  }

  /** Does `s` hold a piece of colour `c`? */
  predicate Holds(s: Square, c: Color) {
    s.piece.Some? && s.piece.value.col == c
  }

  /** The number of spaces in a row holding a piece of colour `c`. */
  function RowColorCount(row: seq<Square>, c: Color): nat
    decreases |row|
  {
    if |row| == 0 then 0
    else RowColorCount(row[..|row| - 1], c) + (if Holds(row[|row| - 1], c) then 1 else 0)
  }

  /** The number of pieces of colour `c` on a board. */
  function ColorCount(g: Grid, c: Color): nat
    decreases |g|
  {
    if |g| == 0 then 0
    else ColorCount(g[..|g| - 1], c) + RowColorCount(g[|g| - 1], c)
  }

  /** Does row `r` of the default board carry colour `c`? */
  predicate RowCarries(r: int, c: Color) {
    if c == WHITE then r <= WHITE_BORDER_INDEX else r >= RED_BORDER_INDEX
  }

  /** The number of cells c' < k with r + c' odd: the playable cells among the first k. */
  function PlayableBefore(r: int, k: nat): nat {
    if r % 2 == 0 then k / 2 else (k + 1) / 2
  }

  lemma {:induction false} StartingRowPrefixCount(r: int, k: nat, c: Color)
    requires k <= CELLS
    ensures RowColorCount(StartingRow(r)[..k], c) == if RowCarries(r, c) then PlayableBefore(r, k) else 0
    decreases k
  {
    if k > 0 {
      var row := StartingRow(r);
      assert row[..k][..k - 1] == row[..k - 1];
      StartingRowPrefixCount(r, k - 1, c);
      var last := row[..k][k - 1];
      assert last == BuildSpace(r, k - 1, (r + k - 1) % 2 == 0);
      assert Holds(last, c) <==> RowCarries(r, c) && (r + k - 1) % 2 == 1;
    }
  }

  /** A row of the default board holds four pieces of a colour it carries, none otherwise. */
  lemma StartingRowCount(r: int, c: Color)
    ensures RowColorCount(StartingRow(r), c) == if RowCarries(r, c) then 4 else 0
  {
    StartingRowPrefixCount(r, CELLS, c);
    assert StartingRow(r)[..CELLS] == StartingRow(r);
  }

  /** The number of rows below k that carry colour `c`. */
  function RowsCarrying(k: nat, c: Color): nat {
    if c == WHITE then (if k < 3 then k else 3) else (if k < 5 then 0 else k - 5)
  }

  lemma {:induction false} StartingGridPrefixCount(k: nat, c: Color)
    requires k <= ROWS
    ensures ColorCount(StartingGrid()[..k], c) == 4 * RowsCarrying(k, c)
    decreases k
  {
    if k > 0 {
      var g := StartingGrid();
      assert g[..k][..k - 1] == g[..k - 1];
      StartingGridPrefixCount(k - 1, c);
      StartingRowCount(k - 1, c);
    }
  }

  /** The default board starts with exactly twelve white and twelve red pieces. */
  lemma StartingGridHasTwelveOfEach()
    ensures ColorCount(StartingGrid(), WHITE) == 12
    ensures ColorCount(StartingGrid(), RED) == 12
  {
    var g := StartingGrid();
    assert g[..ROWS] == g;
    StartingGridPrefixCount(ROWS, WHITE);
    StartingGridPrefixCount(ROWS, RED);
  }

  /**
   * `withPieceAt` on a board: the target space is emptied and then given the
   * piece, so a playable space ends up holding exactly that piece.
   */
  function PlacedAt(g: Grid, piece: Piece, pos: Position): (h: Grid)
    requires IsGrid(g)
    ensures IsGrid(h)
    ensures At(g, pos).state != INVALID ==> At(h, pos) == Square(At(g, pos).cellIdx, OCCUPIED, Some(piece))
    ensures At(g, pos).state == INVALID ==> At(h, pos) == At(g, pos)
    ensures forall q: Position :: q != pos ==> At(h, q) == At(g, q)
  {
    Put(g, pos, AddPieceTo(RemovePieceFrom(At(g, pos)).0, piece).0)
  }

  /** Placing a piece on an INVALID space leaves the whole board as it was. */
  lemma PlacedAtEffect(g: Grid, piece: Piece, pos: Position)
    requires IsGrid(g)
    ensures At(g, pos).state == INVALID ==> PlacedAt(g, piece, pos) == g
  {
    var h := PlacedAt(g, piece, pos);
    if At(g, pos).state == INVALID {
      assert forall r :: 0 <= r < ROWS ==> h[r] == g[r];
    }
  }

  class TestBoardBuilder {
    /** The cached board; None until `build` or `buildBoard` has been run. */
    var board: Option<Grid>

    ghost predicate Valid()
      reads this
    {
      board.Some? ==> IsGrid(board.value)
    }

    constructor ()
      ensures Valid() && board.None?
    {
      board := None;
    }

    /** `withPieceAt`: needs the board to have been built (the source dereferences it). */
    method WithPieceAt(piece: Piece, pos: Position) returns (self: TestBoardBuilder)
      requires Valid() && board.Some?
      modifies this
      ensures Valid() && self == this
      ensures board == Some(PlacedAt(old(board.value), piece, pos))
    {
      var target := At(board.value, pos);
      var (emptied, _) := RemovePieceFrom(target);
      var (placed, _) := AddPieceTo(emptied, piece);
      board := Some(Put(board.value, pos, placed));
      self := this;
    }

    /** `buildRow`: walks the row toggling the "invalid" flag, starting invalid on even rows. */
    method BuildRow(rowId: int) returns (row: seq<Square>)
      ensures row == StartingRow(rowId)
    {
      var cells := new Square[CELLS];
      var startOnBlack := rowId % 2 == 0;
      var cellValid := startOnBlack;
      for cellId := 0 to CELLS
        invariant cellValid == ((rowId + cellId) % 2 == 0)
        invariant forall c :: 0 <= c < cellId ==> cells[c] == BuildSpace(rowId, c, (rowId + c) % 2 == 0)
      {
        cells[cellId] := BuildSpace(rowId, cellId, cellValid);
        cellValid := !cellValid;
      }
      row := cells[..];
    }

    /** `buildBoard`: the cached board if there is one, else a new default board. */
    static method BuildBoard(builder: TestBoardBuilder) returns (g: Grid)
      ensures builder.board.Some? ==> g == builder.board.value
      ensures builder.board.None? ==> g == StartingGrid()
    {
      if builder.board.Some? {
        return builder.board.value;
      }
      var rows := new seq<Square>[ROWS];
      for rowId := 0 to ROWS
        invariant forall r :: 0 <= r < rowId ==> rows[r] == StartingRow(r)
      {
        rows[rowId] := builder.BuildRow(rowId);
      }
      g := rows[..];
    }

    /** `build`: builds and caches the board on the first call, then returns the cache. */
    method Build() returns (g: Grid)
      requires Valid()
      modifies this
      ensures Valid() && board == Some(g)
      ensures old(board).Some? ==> g == old(board).value
      ensures old(board).None? ==> g == StartingGrid()
    {
      if board.None? {
        var built := BuildBoard(this);
        StartingGridLayout(0, 0);
        board := Some(built);
      }
      g := board.value;
    }
  }
}
