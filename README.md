# Checkers game core in Dafny

This project models the game core of a two-player web checkers engine. It covers:

- **Piece** (`Pieces`, piece.dfy): an immutable type × colour value, with its equality, clone and text form.
- **Player** (`Players`, player.dfy): a player whose identity is its name. It carries a win counter, and its hash is the 32-bit `Objects.hash` of the name.
- **Space** (`Spaces`, space.dfy): a board cell that is INVALID, OPEN or OCCUPIED. The value `Square` and the functions on it state what each operation does. The class `Space` performs the operations in place and is proved against those functions.
- **Board** (`Boards`, board.dfy): an 8 × 8 grid of squares, with positions on it.
- **TestBoardBuilder** (`TestBoards`, test_board_builder.dfy): builds the default board row by row, caches it, and places pieces on it.
- **Turn** (`Turns`, turn.dfy): one player's turn. Validated moves wait in a queue, the last one can be backed out, and submitting drains the queue front to back onto the board. The pure record `TurnRecord` and the functions `Validate`, `Backup` and `Submit` are the specification. The class `Turn` is proved against them.
- **CheckersGame** (`Games`, checkers_game.dfy): picks the starting layout and holds the authoritative board and the active turn. Submitting a turn adopts the turn's board, crowns pieces on the back ranks and hands the turn to the other player. It also handles resignation.

The board is a value (`seq<seq<Square>>`). Operations that change it in place in the source reassign the owner's board field here.

Some collaborators are not part of this model, so they are parameters:
- The move validator's queries `validateMove` and `forcedJump` (fields of `Turns.MoveValidator`) and `areMovesAvailableForPlayer` (`CheckersGame.movesAvailable`) are uninterpreted functions.
- `Position.midPosition` is an uninterpreted function given to each `Turn`.
- The boards built by `CheckersBoardBuilder` come from a function `boardFor` given to the game.
- A `Move` carries its own `isASingleMoveAttempt` and `isAJumpMoveAttempt` answers as two booleans.

Move.java, MoveValidator.java, Position.java, Space.java, CheckersBoardBuilder.java and DoublyLinkedQueue.java are not part of this model. `Space` agrees with every assertion of SpaceTest.java. Among the cases that test leaves open, the model decides the state each operation leaves and returns. Those decisions are assumptions, each listed under "## Left out". Space.java is not available, so `jumpPieceMove` is modelled as a move that also empties the captured square.

CheckersGame.java and Turn.java come from two different drafts. CheckersGame builds its turn as `new Turn(board, player, color)` and reads `getLatestBoard()` and `isStable()`. So `CheckersGame` is modelled against `Games.GameTurn`, a turn with a player, a colour, a state and a latest board. The `Turn` class models Turn.java as written.

Two facts about that turn are assumptions, because the draft of Turn that CheckersGame calls is not available:
- A new turn starts in EMPTY_TURN. Turn.java:49 supports this.
- A new turn's latest board is the board it was built with, since nothing has moved yet.

The contracts of `Games.GameTurn.constructor`, `Games.CheckersGame.constructor` and `Games.CheckersGame.ChangeActivePlayer` rely on both facts.

The model follows the code as written, including where the code departs from its own comment (CheckersGame.java:95 says "trigger a win" but only logs):
- When the next player has no legal move, `changeActivePlayer` only logs. The state stays `IN_PLAY`, not `WON`, and the current turn stays active.
- `resignGame` does not check which player is resigning, and it does not check whether the game is still `IN_PLAY`.
- A failed `Turn.submitTurn` is not atomic. Moves applied before the failing one stay on the board, the queue keeps only the moves after it, and the state stays `STABLE_TURN` even when the queue is now empty.
- `makeMove` increments `jumps` again for every jump attempt it applies (Turn.java:146), on top of the count `validateMove` kept.
- Piece.java has no `kingMe`, although `makeKings` calls it. The model crowns a piece by replacing it with a KING of the same colour.

Getters and one-line queries have no row of their own:
- `getPlayerRed`, `getPlayerWhite`, `getBoard`, `getTurn`, `getState`, `getName`, `getType`, `getWins`, `getPiece`, `getCellIdx` and `getPlayer` each read one field, so they are the fields themselves.
- The type and colour getters of `Piece` are the arguments of the `Pieces.Piece` constructor, and nothing can reassign them.
- These queries are predicates or functions:
  - `isMyTurn` is `Turns.Turn.IsMyTurn`.
  - `isSubmitted` and `canResign` are `Turns.Turn.IsSubmitted` and `Turns.Turn.CanResign`.
  - `isTournament` is `Players.Player.IsTournament`.
  - `isValid`, `isOpen` and `isOccupied` are `Spaces.Space.IsValid`, `Spaces.Space.IsOpen` and `Spaces.Space.IsOccupied`.
  - `isResigned` is `Games.CheckersGame.IsResigned`.
  - `getPlayerActive` is `Games.CheckersGame.PlayerActive`.
  - The game's view of its turn answers `isStable` and `canResign` with `Games.GameTurn.IsStable` and `Games.GameTurn.CanResign`.

## Model

| member | source | states |
|---|---|---|
| `Pieces.Equals` | src/main/java/com/webcheckers/model/Piece.java:60-73 | `equals` holds exactly when the other piece is present and is the same type and colour |
| `Pieces.EqualsIsValueEquality` | src/main/java/com/webcheckers/model/Piece.java:60-73 | `equals` holds iff type and colour match, is false for null, and is reflexive and symmetric |
| `Pieces.Clone` | src/main/java/com/webcheckers/model/Piece.java:55-58 | a clone equals its original, in both directions |
| `Pieces.ToString` | src/main/java/com/webcheckers/model/Piece.java:80-84 | the text starts with "Piece: " |
| `Pieces.ToStringInjective` | src/main/java/com/webcheckers/model/Piece.java:80-84 | two pieces print alike exactly when they are the same piece |
| `Players.Player.constructor` | src/main/java/com/webcheckers/model/Player.java:28-32 | a new player has the given name and type and 0 wins |
| `Players.Player.WonAGame` | src/main/java/com/webcheckers/model/Player.java:60 | wins grows by exactly one; name and type are final |
| `Players.Player.Equals` | src/main/java/com/webcheckers/model/Player.java:76-83 | `equals` holds exactly when the object is a Player with the same name |
| `Players.EqualsIsSameName` | src/main/java/com/webcheckers/model/Player.java:76-83 | a player equals an object iff it is a Player with the same name; never null |
| `Players.EqualsIsEquivalence` | src/main/java/com/webcheckers/model/Player.java:76-83 | player equality is reflexive, symmetric and transitive |
| `Players.Player.HashCode` | src/main/java/com/webcheckers/model/Player.java:90-92 | the hash is a 32-bit Java int computed from the name alone |
| `Players.EqualPlayersHashAlike` | src/main/java/com/webcheckers/model/Player.java:90-92 | equal players have equal hash codes |
| `Players.StringHashCodeIsWrappedPolynomial` | src/main/java/com/webcheckers/model/Player.java:90-92 | the step-by-step 32-bit string hash equals the wrapped polynomial s[0]·31^(n-1)+…+s[n-1] |
| `Players.Player.ToString` | src/main/java/com/webcheckers/model/Player.java:100-102 | the text is "Player Name: " followed by the name |
| `Players.ToStringDeterminesIdentity` | src/main/java/com/webcheckers/model/Player.java:100-102 | two players print alike iff they are equal |
| `Spaces.SquareOfPiece` | src/test/java/com/webcheckers/model/SpaceTest.java:45-52 | a space built with a piece is OCCUPIED and holds it; with null it is OPEN; the cell index is kept |
| `Spaces.SquareOfState` | src/test/java/com/webcheckers/model/SpaceTest.java:37-40 | a space built with a state has that state, no piece, and the cell index |
| `Spaces.Space.WithPiece` | src/test/java/com/webcheckers/model/SpaceTest.java:27-52 | the piece constructor builds the space `SquareOfPiece` describes |
| `Spaces.Space.WithState` | src/test/java/com/webcheckers/model/SpaceTest.java:120-125 | the state constructor: state and cell index kept, no piece |
| `Spaces.ValidMeansOpen` | src/test/java/com/webcheckers/model/SpaceTest.java:57-75 | `isValid` is true for OPEN and false for INVALID and OCCUPIED |
| `Spaces.AddPieceTo` | src/test/java/com/webcheckers/model/SpaceTest.java:150-166 | an OPEN space takes the piece and becomes OCCUPIED; any other space, INVALID included, is left as it was and its state is returned |
| `Spaces.Space.AddPiece` | src/test/java/com/webcheckers/model/SpaceTest.java:150-166 | the in-place `addPiece` does what `AddPieceTo` says and keeps the space consistent |
| `Spaces.RemovePieceFrom` | src/test/java/com/webcheckers/model/SpaceTest.java:168-184 | an occupied or open space becomes OPEN with no piece; an INVALID one is unchanged |
| `Spaces.Space.RemovePiece` | src/test/java/com/webcheckers/model/SpaceTest.java:168-184 | the in-place `removePiece` does what `RemovePieceFrom` says |
| `Spaces.MoveConservesPieces` | src/test/java/com/webcheckers/model/SpaceTest.java:194-219 | a move succeeds iff the destination is OPEN and the source has a piece; the piece arrives, the source empties, and the piece count is unchanged |
| `Spaces.MoveInto` | src/test/java/com/webcheckers/model/SpaceTest.java:186-219 | a move succeeds iff the destination is OPEN and the source holds a piece; the destination then holds it and is OCCUPIED, and the source is OPEN and empty; a refused move changes neither space |
| `Spaces.Space.MovePieceFrom` | src/test/java/com/webcheckers/model/SpaceTest.java:186-219 | a null source is refused; otherwise the in-place move does what `MoveInto` says, for source and destination |
| `Spaces.JumpInto` | src/main/java/com/webcheckers/model/Turn.java:145-152 | a jump succeeds exactly when the underlying move does, and then empties the captured space; a failed jump changes nothing |
| `Spaces.OperationsKeepConsistency` | src/test/java/com/webcheckers/model/SpaceTest.java:150-219 | every operation keeps "a piece only when OCCUPIED" and keeps the cell index |
| `Spaces.AddThenRemoveRestores` | src/test/java/com/webcheckers/model/SpaceTest.java:150-184 | adding to an OPEN space and removing again restores it |
| `Spaces.RemoveThenAddHoldsExactly` | src/test/java/com/webcheckers/model/TestBoardBuilder.java:28-35 | removing then adding leaves a playable space holding exactly the new piece; an INVALID one is unchanged |
| `Spaces.InvalidIsImmutable` | src/test/java/com/webcheckers/model/SpaceTest.java:159-166 | an INVALID space refuses a piece, stays INVALID on removal, and refuses to receive a move |
| `Spaces.Space.Clone` | src/test/java/com/webcheckers/model/SpaceTest.java:221-231 | a clone is a new space with the same cell index, state and piece, and it equals the original |
| `Spaces.EqualsComparesAllFields` | src/test/java/com/webcheckers/model/SpaceTest.java:233-249 | spaces are equal iff cell index, state and piece agree; a space never equals null |
| `Boards.Put` | src/test/java/com/webcheckers/model/TestBoardBuilder.java:28-35 | replacing one space keeps the 8 × 8 shape and every other space |
| `TestBoards.TestBoardBuilder.BuildRow` | src/test/java/com/webcheckers/model/TestBoardBuilder.java:43-59 | toggling the flag along the row makes cell c invalid iff rowId + c is even |
| `TestBoards.TestBoardBuilder.BuildBoard` | src/test/java/com/webcheckers/model/TestBoardBuilder.java:95-108 | returns the cached board if there is one, else the default board built row by row |
| `TestBoards.TestBoardBuilder.Build` | src/test/java/com/webcheckers/model/TestBoardBuilder.java:111-118 | builds once and caches; a later call returns the same board |
| `TestBoards.BuildSpace` | src/test/java/com/webcheckers/model/TestBoardBuilder.java:68-85 | INVALID iff the flag is set; otherwise a white single up to row 2, a red single from row 5, OPEN and empty between; the cell index is kept |
| `TestBoards.StartingGridLayout` | src/test/java/com/webcheckers/model/TestBoardBuilder.java:68-85 | 8 rows of 8; (r, c) is INVALID iff r + c is even; playable squares hold a white single in rows 0-2, a red single in rows 5-7, nothing in rows 3-4; cell index = column |
| `TestBoards.StartingGridHasTwelveOfEach` | src/test/java/com/webcheckers/model/TestBoardBuilder.java:43-85 | the default board holds exactly 12 white and 12 red pieces |
| `TestBoards.TestBoardBuilder.WithPieceAt` | src/test/java/com/webcheckers/model/TestBoardBuilder.java:28-35 | needs a built board; replaces it by `PlacedAt` and returns the builder itself |
| `TestBoards.PlacedAt` | src/test/java/com/webcheckers/model/TestBoardBuilder.java:28-35 | a playable target ends up holding exactly the piece, an INVALID one is unchanged, and no other square changes |
| `TestBoards.PlacedAtEffect` | src/test/java/com/webcheckers/model/TestBoardBuilder.java:28-35 | placing a piece on an INVALID space leaves the whole board unchanged |
| `Turns.NewTurnIsEmpty` | src/main/java/com/webcheckers/model/Turn.java:41-49 | a new turn has an empty queue, is EMPTY_TURN, has no single step and no jumps |
| `Turns.Turn.constructor` | src/main/java/com/webcheckers/model/Turn.java:41-54 | a new turn object is `NewTurn()` on the given board and player |
| `Turns.Validate` | src/main/java/com/webcheckers/model/Turn.java:62-98 | a refused move leaves the turn as it was; an accepted one is queued at the rear and the turn becomes STABLE_TURN |
| `Turns.ValidateRules` | src/main/java/com/webcheckers/model/Turn.java:67-97 | a single-step attempt is refused after a jump or when a jump is forced; nothing is accepted after a single step; an accepted move is appended at the rear, the state becomes STABLE_TURN, and jumps grows by one iff it is a jump attempt; a refusal changes nothing |
| `Turns.Turn.ValidateMove` | src/main/java/com/webcheckers/model/Turn.java:62-98 | the in-place `validateMove` does what `Validate` says and leaves the board alone |
| `Turns.ValidateKeepsInvariant` | src/main/java/com/webcheckers/model/Turn.java:77-87 | accepting or refusing a move keeps the turn invariant |
| `Turns.Backup` | src/main/java/com/webcheckers/model/Turn.java:170-191 | succeeds iff a move is queued; then the last queued move is dropped and single is cleared; otherwise nothing changes |
| `Turns.BackupRules` | src/main/java/com/webcheckers/model/Turn.java:170-191 | backing up an empty queue fails and changes nothing; otherwise the rear move is removed (LIFO) and single is cleared; an emptied queue means EMPTY_TURN with zero jumps |
| `Turns.Turn.BackupMove` | src/main/java/com/webcheckers/model/Turn.java:170-191 | the in-place `backupMove` does what `Backup` says |
| `Turns.BackupKeepsInvariant` | src/main/java/com/webcheckers/model/Turn.java:178-186 | backing up keeps the turn invariant |
| `Turns.BackupUndoesValidate` | src/main/java/com/webcheckers/model/Turn.java:77-87 | accept-then-backup restores the queue and state and clears single; it restores the whole turn when the move was a jump or no jumps were counted |
| `Turns.RunKeepsInvariant` | src/main/java/com/webcheckers/model/Turn.java:62-191 | across any sequence of validate and backup calls, EMPTY_TURN holds iff the queue is empty, and jumps is never negative |
| `Turns.MakeMoveOn` | src/main/java/com/webcheckers/model/Turn.java:136-161 | the board keeps its shape; a refused move leaves it as it was; a jump attempt counts a jump even if it fails, any other move sets single |
| `Turns.MakeMoveRelocatesPiece` | src/main/java/com/webcheckers/model/Turn.java:136-161 | a move between distinct squares succeeds iff the end square is OPEN and the start has a piece; the piece moves, a jumped square is cleared, no other square changes, and a failure changes nothing; a jump counts a jump, any other move sets single |
| `Turns.Turn.MakeMove` | src/main/java/com/webcheckers/model/Turn.java:136-161 | the in-place `makeMove` does what `MakeMoveOn` says |
| `Turns.Drain` | src/main/java/com/webcheckers/model/Turn.java:116-120 | draining succeeds only by using up the queue; on failure exactly the moves after the failing one are left queued, a proper suffix of the queue; the board keeps its shape |
| `Turns.DrainAppend` | src/main/java/com/webcheckers/model/Turn.java:116-120 | moves are applied front to back; the second part runs only if every move of the first part succeeded |
| `Turns.Submit` | src/main/java/com/webcheckers/model/Turn.java:106-127 | an empty queue is refused with no change; success leaves the turn TURN_SUBMITTED with nothing queued; failure keeps the state |
| `Turns.SubmitOutcome` | src/main/java/com/webcheckers/model/Turn.java:112-126 | submitting an empty queue fails and changes nothing; success means every move applied and TURN_SUBMITTED; failure keeps the state |
| `Turns.Turn.SubmitTurn` | src/main/java/com/webcheckers/model/Turn.java:106-127 | the queue-draining loop does what `Submit` says, to the board and to the turn |
| `Turns.ResignOnlyWhenNothingQueued` | src/main/java/com/webcheckers/model/Turn.java:207-213 | under the invariant, `canResign` holds iff nothing is queued, and `isSubmitted` does not hold |
| `Games.InitialLayout` | src/main/java/com/webcheckers/model/CheckersGame.java:132-229 | a scenario board exactly for the names "noMoreMoves", "endgame" and "kingMe", and each scenario places single pieces only |
| `Games.LayoutSelection` | src/main/java/com/webcheckers/model/CheckersGame.java:135-221 | the scenarios place 4, 2 and 3 pieces; "noPieces" falls through to the standard board |
| `Games.GameTurn.constructor` | src/main/java/com/webcheckers/model/CheckersGame.java:38 | a fresh turn starts EMPTY_TURN on the board it is given, for the given player and colour |
| `Games.CheckersGame.constructor` | src/main/java/com/webcheckers/model/CheckersGame.java:27-39 | a new game is IN_PLAY on the board selected by the red player's name; its first turn is fresh, belongs to red with colour RED, and is EMPTY_TURN |
| `Games.CheckersGame.PlayerColor` | src/main/java/com/webcheckers/model/CheckersGame.java:107-115 | RED for the red player's name, WHITE for the white player's name unless it is also red's, None otherwise |
| `Games.CheckersGame.NextPlayer` | src/main/java/com/webcheckers/model/CheckersGame.java:82-88 | red with colour RED comes next exactly when the active player has the white player's name; otherwise white with colour WHITE |
| `Games.CheckersGame.NextPlayerAlternates` | src/main/java/com/webcheckers/model/CheckersGame.java:82-88 | with distinct names the turn alternates red and white, and the colour handed over is the next player's own |
| `Games.CheckersGame.ChangeActivePlayer` | src/main/java/com/webcheckers/model/CheckersGame.java:76-99 | the next player gets a fresh EMPTY_TURN on the current board only if they have a move; otherwise the active turn and the state are unchanged |
| `Games.CheckersGame.SubmitTurn` | src/main/java/com/webcheckers/model/CheckersGame.java:247-259 | succeeds iff the caller equals the active player and the turn is stable; then the board is the turn's latest board kinged, and the turn passes as in `ChangeActivePlayer`; a refusal changes nothing |
| `Games.CheckersGame.MakeKings` | src/main/java/com/webcheckers/model/CheckersGame.java:264-278 | the two loops leave the board equal to `Kinged` of the old board |
| `Games.Kinged` | src/main/java/com/webcheckers/model/CheckersGame.java:264-278 | keeps the board's shape and leaves every row other than 0 and 7 unchanged |
| `Games.KingedEffect` | src/main/java/com/webcheckers/model/CheckersGame.java:264-278 | red pieces on row 0 and white pieces on row 7 become KINGs of the same colour; rows 1-6 and all other squares are unchanged; cell index, state and colour are kept |
| `Games.KingedLeavesNoSingleOnBackRank` | src/main/java/com/webcheckers/model/CheckersGame.java:264-278 | afterwards no red single remains on row 0 and no white single on row 7 |
| `Games.KingedIsIdempotent` | src/main/java/com/webcheckers/model/CheckersGame.java:264-278 | kinging twice equals kinging once |
| `Games.CheckersGame.ResignGame` | src/main/java/com/webcheckers/model/CheckersGame.java:284-300 | succeeds exactly when the active turn can resign, and then the game is RESIGNED and `isResigned` holds; a failure leaves the state unchanged |

## Left out

- Logging: every `Logger` call is left out, and so is the board-string dump in `initStartingBoard`.
- The commented-out placement loops in `initStartingBoard` are left out because they are not code.
- `Turn.submitTurn`'s final call `game.nextTurn()` is left out. It calls into a game method that this draft of CheckersGame does not have.
- Turn's `game` field is left out. Turn uses it for logging, for that callback, and to build the move validator (Turn.java:51). The model takes the validator as the `validator` parameter instead.
- Move legality is left out. `validateMove`, `forcedJump`, `areMovesAvailableForPlayer`, `midPosition` and the move classification are uninterpreted, so no geometry or direction rule is stated.
- Starting layouts: the boards `CheckersBoardBuilder` makes for each layout are left abstract. Only the choice of layout and the scenario placements are modelled.
- `DoublyLinkedQueue` is a sequence here. Enqueue appends at the rear, `removeFromFront` drops the head, and `removeFromRear` drops the last move.
- Aliasing: boards are values, so the game's board and a turn's board never share `Space` objects. In the source they do share them (`board = activeTurn.getLatestBoard()`, `new Turn(board, …)`), and that sharing is not captured.
- Games.CheckersGame.MakeKings: the source dereferences the piece of any OCCUPIED square on rows 0 and 7. An OCCUPIED square with no piece would throw there. The model skips such a square instead.
- Turns.Turn.SubmitTurn: a move whose start and end coincide, or whose midpoint is its start or end, acts on board values. The source acts on shared `Space` objects. The two agree whenever spaces hold a piece only when OCCUPIED.
- Players.Player.WonAGame: the Java `int` counter's wrap-around after 2^31 - 1 wins is not modelled.
- Turns.Turn.ValidateMove: the Java `int` jump counter's wrap-around is not modelled.
- Players.Player.HashCode: characters are Unicode scalar values. For characters outside the Basic Multilingual Plane, Java hashes two UTF-16 units instead.
- Spaces.AddPieceTo: assumed, because Space.java is not available. `addPiece` on an OCCUPIED space refuses and keeps the old piece. SpaceTest.java checks only OPEN and INVALID spaces.
- Spaces.AddPieceTo: assumed, because Space.java is not available. `addPiece` on an OPEN space makes it OCCUPIED and returns OCCUPIED. SpaceTest.java:150-157 checks only the stored piece.
- Spaces.AddPieceTo: assumed, because Space.java is not available. `addPiece` on an INVALID space stores nothing and leaves the space unchanged. SpaceTest.java:159-166 checks only the returned INVALID. `Spaces.InvalidIsImmutable` relies on this too.
- Spaces.RemovePieceFrom: assumed, because Space.java is not available. `removePiece` on an INVALID space changes nothing. SpaceTest.java checks only OCCUPIED and OPEN spaces.
- Spaces.RemovePieceFrom: assumed, because Space.java is not available. `removePiece` on an OCCUPIED space returns OPEN. SpaceTest.java:168-176 ignores the returned value.
- Spaces.MoveInto: assumed, because Space.java is not available. After a successful `movePieceFrom`, the destination is OCCUPIED with the piece and the source is OPEN and empty. SpaceTest.java:186-219 checks only the boolean result.
- Spaces.JumpInto: assumed, because Space.java is not available. A failed `jumpPieceMove` leaves the captured space alone.
- Spaces.Space.Valid: assumed, because Space.java is not available. Every space holds a piece only when it is OCCUPIED, after every operation. SpaceTest.java checks this only for the constructors.
- Null: a null player, or a null piece passed to `addPiece`, is ruled out by the types.
- `equals` with an argument that is not a Piece is ruled out by the types. Piece equality takes an optional piece instead.
