/**
 * CheckersGame.java: the game between a red and a white player. It owns the
 * authoritative board, the active turn and the game state; submitting a turn
 * adopts the turn's board, kings pieces on the back ranks and hands the turn
 * to the other player.
 *
 * CheckersGame.java is written against a turn that offers `getPlayer`,
 * `isStable`, `canResign` and `getLatestBoard` and is built from a board, a
 * player and a colour; `GameTurn` is that turn, seen from the game. The
 * move validator's `areMovesAvailableForPlayer` and the layouts built by
 * CheckersBoardBuilder are not part of this model and are supplied as
 * uninterpreted functions.
 */
module Games {
  import opened Options
  import opened Pieces
  import opened Players
  import opened Spaces
  import opened Boards
  import opened Turns

  datatype GameState = IN_PLAY | WON | RESIGNED

  /** A piece placed on the builder's board for a named test scenario. */
  datatype Placement = Placement(piece: Piece, pos: Position)

  /** The board a game starts from: the standard start, or a scenario's placements. */
  datatype StartingLayout = CustomLayout(placements: seq<Placement>) | StandardLayout

  /**
   * `initStartingBoard`: the red player's name selects a scenario. The
   * "noPieces" case places a piece and then falls through into the default
   * case, which replaces the builder with the standard starting board.
   */
  function InitialLayout(redName: string): (layout: StartingLayout)
    ensures layout.CustomLayout? <==> redName == "noMoreMoves" || redName == "endgame" || redName == "kingMe"
    ensures layout.CustomLayout? ==> forall i :: 0 <= i < |layout.placements| ==> layout.placements[i].piece.ty == SINGLE
  {
    if redName == "noMoreMoves" then
      CustomLayout([Placement(Piece(SINGLE, WHITE), Position(1, 0)),
                    Placement(Piece(SINGLE, WHITE), Position(1, 2)),
                    Placement(Piece(SINGLE, WHITE), Position(0, 3)),
                    Placement(Piece(SINGLE, RED), Position(3, 0))])
    else if redName == "endgame" then
      CustomLayout([Placement(Piece(SINGLE, WHITE), Position(1, 0)),
                    Placement(Piece(SINGLE, RED), Position(2, 1))])
    else if redName == "kingMe" then
      CustomLayout([Placement(Piece(SINGLE, RED), Position(1, 0)),
                    Placement(Piece(SINGLE, WHITE), Position(6, 1)),
                    Placement(Piece(SINGLE, WHITE), Position(1, 2))])
    else
      StandardLayout
  }

  /**
   * Only the names "noMoreMoves", "endgame" and "kingMe" select a scenario
   * board; "noPieces", by falling through, gets the standard board like any
   * other name.
   */
  lemma LayoutSelection()
    ensures InitialLayout("noPieces") == StandardLayout
    ensures |InitialLayout("noMoreMoves").placements| == 4
    ensures |InitialLayout("endgame").placements| == 2
    ensures |InitialLayout("kingMe").placements| == 3
  {
  }

  /** `kingMe`: the same colour, now a KING. */
  function Crown(p: Piece): Piece {
    Piece(KING, p.col)
  }

  /** A square `makeKings` changes: an occupied square with a red piece in row 0 or a white one in row 7. */
  predicate Promotes(row: int, s: Square) {
    && s.state == OCCUPIED && s.piece.Some?
    && ((row == 0 && s.piece.value.col == RED) || (row == 7 && s.piece.value.col == WHITE))
  }

  function KingSquare(row: int, s: Square): Square {
    if Promotes(row, s) then s.(piece := Some(Crown(s.piece.value))) else s
  }

  /** The board after `makeKings`. */
  function Kinged(g: Grid): (k: Grid)
    ensures |k| == |g| && forall r :: 0 <= r < |g| ==> |k[r]| == |g[r]|
    ensures forall r :: 0 <= r < |g| && r != 0 && r != 7 ==> k[r] == g[r]
  {
    seq(|g|, r requires 0 <= r < |g| => seq(|g[r]|, c requires 0 <= c < |g[r]| => KingSquare(r, g[r][c])))
  }

  /**
   * `makeKings` crowns every red piece in row 0 and every white piece in row 7,
   * and touches nothing else: rows 1 to 6 are unchanged, every square keeps its
   * cell index, state and piece colour, and only a crowned piece changes.
   */
  lemma KingedEffect(g: Grid, r: int, c: int)
    requires IsGrid(g) && 0 <= r < ROWS && 0 <= c < CELLS
    ensures IsGrid(Kinged(g))
    ensures r != 0 && r != 7 ==> Kinged(g)[r] == g[r]
    ensures var s, k := g[r][c], Kinged(g)[r][c];
      && k.cellIdx == s.cellIdx && k.state == s.state
      && k.piece.Some? == s.piece.Some?
      && (s.piece.Some? ==> k.piece.value.col == s.piece.value.col)
      && (Promotes(r, s) ==> k.piece == Some(Piece(KING, s.piece.value.col)))
      && (!Promotes(r, s) ==> k == s)
  {
  }

  /** After `makeKings` no single red piece remains on row 0 and no single white piece on row 7. */
  lemma KingedLeavesNoSingleOnBackRank(g: Grid, c: int)
    requires IsGrid(g) && 0 <= c < CELLS
    ensures var k := Kinged(g);
      && !(k[0][c].state == OCCUPIED && k[0][c].piece == Some(Piece(SINGLE, RED)))
      && !(k[7][c].state == OCCUPIED && k[7][c].piece == Some(Piece(SINGLE, WHITE)))
  {
  }

  /** Kinging twice is kinging once. */
  lemma KingedIsIdempotent(g: Grid)
    requires IsGrid(g)
    ensures Kinged(Kinged(g)) == Kinged(g)
  {
    var k := Kinged(g);
    forall r | 0 <= r < |k|
      ensures Kinged(k)[r] == k[r]
    {
      assert forall c :: 0 <= c < |k[r]| ==> KingSquare(r, k[r][c]) == k[r][c];
    }
  }

  /** The active turn as the game sees it. */
  class GameTurn {
    const player: Player
    const color: Color
    var state: TurnState
    var latestBoard: Grid

    /** `new Turn(board, player, color)`: a fresh turn starts EMPTY_TURN on the given board. */
    constructor (board: Grid, player: Player, color: Color)
      ensures this.player == player && this.color == color
      ensures state == EMPTY_TURN && latestBoard == board
    {
      this.player := player;
      this.color := color;
      state := EMPTY_TURN;
      latestBoard := board;
    }

    predicate IsStable()
      reads this
    {
      state == STABLE_TURN
    }

    predicate CanResign()
      reads this
    {
      state == EMPTY_TURN
    }
  }

  class CheckersGame {
    const playerRed: Player
    const playerWhite: Player
    var board: Grid
    var activeTurn: GameTurn
    var state: GameState
    /** `MoveValidator.areMovesAvailableForPlayer`, uninterpreted. */
    const movesAvailable: (Grid, Player, Color) -> bool

    ghost predicate Valid()
      reads this, activeTurn
    {
      IsGrid(board) && IsGrid(activeTurn.latestBoard)
    }

    /** A new game is IN_PLAY and red moves first, on the board its red player's name selects. */
    constructor (playerRed: Player, playerWhite: Player, boardFor: StartingLayout -> Grid,
                 movesAvailable: (Grid, Player, Color) -> bool)
      requires IsGrid(boardFor(InitialLayout(playerRed.name)))
      ensures Valid()
      ensures this.playerRed == playerRed && this.playerWhite == playerWhite
      ensures this.movesAvailable == movesAvailable
      ensures state == IN_PLAY && board == boardFor(InitialLayout(playerRed.name))
      ensures fresh(activeTurn) && activeTurn.player == playerRed && activeTurn.color == RED
      ensures activeTurn.state == EMPTY_TURN && activeTurn.latestBoard == board
    {
      this.playerRed := playerRed;
      this.playerWhite := playerWhite;
      this.movesAvailable := movesAvailable;
      state := IN_PLAY;
      var startingBoard := boardFor(InitialLayout(playerRed.name));
      board := startingBoard;
      activeTurn := new GameTurn(startingBoard, playerRed, RED);
    }

    function PlayerActive(): Player
      reads this
    {
      activeTurn.player
    }

    /**
     * `getPlayerColor`: RED for the red player, WHITE for the white player,
     * null for anyone else; players are matched by name, red first.
     */
    function PlayerColor(player: Player): (color: Option<Color>)
      ensures color == Some(RED) <==> player.name == playerRed.name
      ensures color == Some(WHITE) <==> player.name != playerRed.name && player.name == playerWhite.name
      ensures color == None <==> player.name != playerRed.name && player.name != playerWhite.name
    {
      if player.Equals(playerRed) then Some(RED)
      else if player.Equals(playerWhite) then Some(WHITE)
      else None
    }

    /** The player and colour to move after `active`: red after white, white otherwise. */
    function NextPlayer(active: Player): (next: (Player, Color))
      ensures next.1 == RED <==> active.name == playerWhite.name
      ensures next.0 == (if next.1 == RED then playerRed else playerWhite)
    {
      if active.Equals(playerWhite) then (playerRed, RED) else (playerWhite, WHITE)
    }

    /**
     * With distinct names, the turn alternates between the two players, and the
     * colour handed over is the next player's own colour.
     */
    lemma NextPlayerAlternates(active: Player)
      requires playerRed.name != playerWhite.name
      ensures NextPlayer(playerRed) == (playerWhite, WHITE)
      ensures NextPlayer(playerWhite) == (playerRed, RED)
      ensures NextPlayer(NextPlayer(playerRed).0) == (playerRed, RED)
      ensures PlayerColor(NextPlayer(active).0) == Some(NextPlayer(active).1)
    {
    }

    /**
     * `changeActivePlayer`: the other player gets a fresh turn on the current
     * board if they have a move; otherwise the turn, and so the active
     * player, stays as it was (the source only logs the win).
     */
    method ChangeActivePlayer()
      requires Valid()
      modifies this
      ensures Valid() && board == old(board) && state == old(state)
      ensures var (next, color) := NextPlayer(old(activeTurn).player);
        if movesAvailable(board, next, color) then
          && fresh(activeTurn) && activeTurn.player == next && activeTurn.color == color
          && activeTurn.state == EMPTY_TURN && activeTurn.latestBoard == board
        else activeTurn == old(activeTurn)
    {
      var activePlayer := activeTurn.player;
      var nextPlayer: Player;
      var nextPlayerColor: Color;
      if activePlayer.Equals(playerWhite) {
        nextPlayer, nextPlayerColor := playerRed, RED;
      } else {
        nextPlayer, nextPlayerColor := playerWhite, WHITE;
      }
      if movesAvailable(board, nextPlayer, nextPlayerColor) {
        activeTurn := new GameTurn(board, nextPlayer, nextPlayerColor);
      }
    }

    /**
     * `submitTurn`: only the active player, and only with a stable turn; then
     * the turn's board becomes the game's, pieces on the back ranks are
     * crowned, and the turn passes on. A refused submission changes nothing.
     */
    method SubmitTurn(player: Player) returns (ok: bool)
      requires Valid()
      modifies this
      ensures Valid() && state == old(state)
      ensures ok == (player.Equals(old(activeTurn).player) && old(activeTurn.state) == STABLE_TURN)
      ensures !ok ==> board == old(board) && activeTurn == old(activeTurn)
      ensures ok ==> board == Kinged(old(activeTurn.latestBoard))
      ensures ok ==> var (next, color) := NextPlayer(old(activeTurn).player);
        if movesAvailable(board, next, color) then
          && fresh(activeTurn) && activeTurn.player == next && activeTurn.color == color
          && activeTurn.state == EMPTY_TURN && activeTurn.latestBoard == board
        else activeTurn == old(activeTurn)
    {
      if player.Equals(PlayerActive()) && activeTurn.IsStable() {
        board := activeTurn.latestBoard;
        MakeKings();
        ChangeActivePlayer();
        return true;
      }
      return false;
    }

    /** `makeKings`: one pass along row 0 for red pieces, one along row 7 for white ones. */
    method MakeKings()
      requires IsGrid(board)
      modifies this`board
      ensures board == Kinged(old(board))
    {
      ghost var g := board;
      for cell := 0 to CELLS
        invariant IsGrid(board)
        invariant forall r :: 1 <= r < ROWS ==> board[r] == g[r]
        invariant forall c :: 0 <= c < cell ==> board[0][c] == KingSquare(0, g[0][c])
        invariant forall c :: cell <= c < CELLS ==> board[0][c] == g[0][c]
      {
        var s := board[0][cell];
        if s.state == OCCUPIED && s.piece.Some? && s.piece.value.col == RED {
          board := board[0 := board[0][cell := s.(piece := Some(Crown(s.piece.value)))]];
        }
      }
      for cell := 0 to CELLS
        invariant IsGrid(board)
        invariant forall c :: 0 <= c < CELLS ==> board[0][c] == KingSquare(0, g[0][c])
        invariant forall r :: 1 <= r < 7 ==> board[r] == g[r]
        invariant forall c :: 0 <= c < cell ==> board[7][c] == KingSquare(7, g[7][c])
        invariant forall c :: cell <= c < CELLS ==> board[7][c] == g[7][c]
      {
        var s := board[7][cell];
        if s.state == OCCUPIED && s.piece.Some? && s.piece.value.col == WHITE {
          board := board[7 := board[7][cell := s.(piece := Some(Crown(s.piece.value)))]];
        }
      }
      forall r | 0 <= r < ROWS
        ensures board[r] == Kinged(g)[r]
      {
        assert forall c :: 0 <= c < CELLS ==> board[r][c] == KingSquare(r, g[r][c]);
      }
    }

    /** `resignGame`: allowed exactly when the active turn can be resigned. */
    method ResignGame() returns (ok: bool)
      modifies this`state
      ensures ok == old(activeTurn.CanResign())
      ensures ok ==> state == RESIGNED && IsResigned()
      ensures !ok ==> state == old(state)
    {
      if activeTurn.CanResign() {
        state := RESIGNED;
        return true;
      }
      return false;
    }

    predicate IsResigned()
      reads this
    {
      state == RESIGNED
    }
  }
}
