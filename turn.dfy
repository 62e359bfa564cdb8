/**
 * Turn.java: one player's turn. Validated moves wait in a queue; the last one
 * can be backed out; submitting applies them to the board front to back.
 *
 * Move.java, MoveValidator.java and Position.midPosition are not part of this
 * model: a move carries its own single-step / jump classification as given
 * facts, and the validator's queries and the midpoint are uninterpreted
 * functions supplied when the turn is made.
 */
module Turns {
  import opened Options
  import opened Players
  import opened Spaces
  import opened Boards

  /** A candidate move; `singleAttempt` and `jumpAttempt` are what Move reports about itself. */
  datatype Move = Move(start: Position, end: Position, singleAttempt: bool, jumpAttempt: bool)

  datatype TurnState = EMPTY_TURN | STABLE_TURN | TURN_SUBMITTED

  /** The move validator's two queries, uninterpreted. */
  datatype MoveValidator = MoveValidator(validateMove: Move -> bool, forcedJump: Move -> bool)

  /** The queue of pending moves (front first), the state, the `single` flag and the jump counter. */
  datatype TurnRecord = TurnRecord(pending: seq<Move>, state: TurnState, single: bool, jumps: int)

  /** A new turn: nothing queued, EMPTY_TURN, no single step taken, no jumps. */
  function NewTurn(): TurnRecord {
    TurnRecord([], EMPTY_TURN, false, 0)
  }

  /**
   * What holds of a turn between `validateMove` and `backupMove` calls: it is
   * EMPTY_TURN exactly when nothing is queued, the jump counter lies between
   * zero and the queue length, and a single step has been taken only if a
   * move is queued.
   */
  predicate TurnInvariant(t: TurnRecord) {
    && t.state != TURN_SUBMITTED
    && (t.state == EMPTY_TURN <==> |t.pending| == 0)
    && 0 <= t.jumps <= |t.pending|
    && (t.single ==> |t.pending| > 0)
  }

  /**
   * `validateMove`: a single-step attempt after a jump, or while a jump is
   * forced, is refused; otherwise a move the validator accepts is queued
   * unless a single step has already been taken.
   */
  function Validate(t: TurnRecord, move: Move, validator: MoveValidator): (r: (TurnRecord, bool))
    ensures !r.1 ==> r.0 == t
    ensures r.1 ==> r.0.pending == t.pending + [move] && r.0.state == STABLE_TURN
  {
    var hasJumped := t.jumps > 0;
    var forcedJump := validator.forcedJump(move);
    if move.singleAttempt && (hasJumped || forcedJump) then (t, false)
    else if !t.single && validator.validateMove(move) then
      (TurnRecord(t.pending + [move], STABLE_TURN, t.single || move.singleAttempt,
                  if move.jumpAttempt then t.jumps + 1 else t.jumps),
       true)
    else (t, false)
  }

  /**
   * `backupMove`: nothing to undo on an empty queue; otherwise the most recent
   * move is dropped, the single-step flag is cleared, the jump counter goes
   * down (or to zero with the turn back to EMPTY_TURN once the queue is empty).
   */
  function Backup(t: TurnRecord): (r: (TurnRecord, bool))
    ensures r.1 <==> |t.pending| > 0
    ensures !r.1 ==> r.0 == t
    ensures r.1 ==> t.pending == r.0.pending + [t.pending[|t.pending| - 1]] && !r.0.single
  {
    if |t.pending| == 0 then (t, false)
    else
      var rest := t.pending[..|t.pending| - 1];
      var state := if |rest| == 0 then EMPTY_TURN else t.state;
      var jumps := if |rest| == 0 then 0 else t.jumps;
      (TurnRecord(rest, state, false, if jumps > 0 then jumps - 1 else jumps), true)
  }

  /** The rules `validateMove` enforces, and what an accepted move does. */
  lemma ValidateRules(t: TurnRecord, move: Move, validator: MoveValidator)
    ensures var (t', ok) := Validate(t, move, validator);
      && (move.singleAttempt && (t.jumps > 0 || validator.forcedJump(move)) ==> !ok)
      && (t.single ==> !ok)
      && (ok <==> !(move.singleAttempt && (t.jumps > 0 || validator.forcedJump(move)))
                  && !t.single && validator.validateMove(move))
      && (!ok ==> t' == t)
      && (ok ==> t'.pending == t.pending + [move] && |t'.pending| == |t.pending| + 1
                 && t'.state == STABLE_TURN && t'.single == move.singleAttempt
                 && t'.jumps == t.jumps + (if move.jumpAttempt then 1 else 0))
  {
  }

  /** `backupMove` is last-in-first-out and always clears the single-step flag. */
  lemma BackupRules(t: TurnRecord)
    ensures var (t', ok) := Backup(t);
      && (ok <==> |t.pending| > 0)
      && (!ok ==> t' == t)
      && (ok ==> t.pending == t'.pending + [t.pending[|t.pending| - 1]] && !t'.single)
      && (ok && |t'.pending| == 0 ==> t'.state == EMPTY_TURN && t'.jumps == 0)
  {
  }

  lemma ValidateKeepsInvariant(t: TurnRecord, move: Move, validator: MoveValidator)
    requires TurnInvariant(t)
    ensures TurnInvariant(Validate(t, move, validator).0)
  {
  }

  lemma BackupKeepsInvariant(t: TurnRecord)
    requires TurnInvariant(t)
    ensures TurnInvariant(Backup(t).0)
  {
  }

  /**
   * Accepting a move and then backing up restores the queue and clears the
   * single-step flag; the whole turn is restored when the move was a jump or
   * no jump had been counted.
   */
  lemma BackupUndoesValidate(t: TurnRecord, move: Move, validator: MoveValidator)
    requires TurnInvariant(t)
    requires Validate(t, move, validator).1
    ensures var t' := Backup(Validate(t, move, validator).0).0;
      && t'.pending == t.pending
      && t'.state == t.state
      && !t'.single
      && (move.jumpAttempt || t.jumps == 0 ==> t' == t)
  {
    var t1 := Validate(t, move, validator).0;
    assert t1.pending[..|t1.pending| - 1] == t.pending;
  }

  /** One call a caller can make on a turn before submitting it. */
  datatype Action = ValidateAction(move: Move) | BackupAction

  /** The turn after a sequence of `validateMove` and `backupMove` calls. */
  function Run(t: TurnRecord, actions: seq<Action>, validator: MoveValidator): TurnRecord
    decreases |actions|
  {
    if |actions| == 0 then t
    else
      var next := match actions[0]
        case ValidateAction(m) => Validate(t, m, validator).0
        case BackupAction => Backup(t).0;
      Run(next, actions[1..], validator)
  }

  /**
   * Across any sequence of `validateMove` and `backupMove` calls from a new
   * turn, the turn is EMPTY_TURN exactly when its queue is empty and the jump
   * counter never goes negative.
   */
  lemma {:induction false} RunKeepsInvariant(t: TurnRecord, actions: seq<Action>, validator: MoveValidator)
    requires TurnInvariant(t)
    ensures var t' := Run(t, actions, validator);
      TurnInvariant(t') && (t'.state == EMPTY_TURN <==> |t'.pending| == 0) && t'.jumps >= 0
    decreases |actions|
  {
    if |actions| > 0 {
      match actions[0]
      case ValidateAction(m) =>
        ValidateKeepsInvariant(t, m, validator);
        RunKeepsInvariant(Validate(t, m, validator).0, actions[1..], validator);
      case BackupAction =>
        BackupKeepsInvariant(t);
        RunKeepsInvariant(Backup(t).0, actions[1..], validator);
    }
  }

  lemma NewTurnIsEmpty()
    ensures TurnInvariant(NewTurn()) && NewTurn().pending == [] && NewTurn().state == EMPTY_TURN
    ensures !NewTurn().single && NewTurn().jumps == 0
  {
  }

  /** The board, jump counter and single-step flag after `makeMove`, and its result. */
  datatype MoveOutcome = MoveOutcome(grid: Grid, jumps: int, single: bool, ok: bool)

  /**
   * `makeMove`: a jump attempt counts a jump and jumps the piece from start to
   * end over the midpoint; any other move marks a single step and moves the
   * piece from start to end.
   */
  function MakeMoveOn(g: Grid, move: Move, jumps: int, single: bool,
                      midPosition: (Position, Position) -> Position): (r: MoveOutcome)
    requires IsGrid(g)
    ensures IsGrid(r.grid)
    ensures !r.ok ==> r.grid == g
    ensures r.jumps == jumps + (if move.jumpAttempt then 1 else 0)
    ensures r.single == (single || !move.jumpAttempt)
  {
    if move.jumpAttempt then
      var mid := midPosition(move.end, move.start);
      var (ok, endSq, startSq, midSq) := JumpInto(At(g, move.end), At(g, move.start), At(g, mid));
      var g' := if ok then Put(Put(Put(g, move.end, endSq), move.start, startSq), mid, midSq) else g;
      MoveOutcome(g', jumps + 1, single, ok)
    else
      var (ok, endSq, startSq) := MoveInto(At(g, move.end), At(g, move.start));
      var g' := if ok then Put(Put(g, move.end, endSq), move.start, startSq) else g;
      MoveOutcome(g', jumps, true, ok)
  }

  /**
   * Between distinct squares, `makeMove` succeeds exactly when the end square
   * is OPEN and the start square holds a piece; the piece then stands on the
   * end square, the start square is empty, a jumped-over square is cleared,
   * and no other square changes. A refused move changes no square.
   */
  lemma MakeMoveRelocatesPiece(g: Grid, move: Move, jumps: int, single: bool,
                               midPosition: (Position, Position) -> Position)
    requires IsGrid(g) && move.start != move.end
    requires move.jumpAttempt ==>
      midPosition(move.end, move.start) != move.start && midPosition(move.end, move.start) != move.end
    ensures var r := MakeMoveOn(g, move, jumps, single, midPosition);
      && (r.ok <==> At(g, move.end).state == OPEN && At(g, move.start).piece.Some?)
      && (!r.ok ==> r.grid == g)
      && (r.ok ==> At(r.grid, move.end) == Square(At(g, move.end).cellIdx, OCCUPIED, At(g, move.start).piece))
      && (r.ok ==> At(r.grid, move.start) == Square(At(g, move.start).cellIdx, OPEN, None))
      && (r.ok && move.jumpAttempt ==>
            At(r.grid, midPosition(move.end, move.start))
              == RemovePieceFrom(At(g, midPosition(move.end, move.start))).0)
      && (forall q: Position ::
            q != move.start && q != move.end && (move.jumpAttempt ==> q != midPosition(move.end, move.start))
            ==> At(r.grid, q) == At(g, q))
      && (r.jumps == jumps + (if move.jumpAttempt then 1 else 0))
      && (r.single == (single || !move.jumpAttempt))
  {
  }

  /** Where draining the queue stopped: the board, the moves left, the counters, success. */
  datatype Drained = Drained(grid: Grid, rest: seq<Move>, jumps: int, single: bool, ok: bool)

  /**
   * Take moves from the front one at a time; stop at the first that fails.
   * Draining succeeds only by using up the queue; when it fails, what is left
   * is a proper suffix of the queue: the moves after the one that failed.
   */
  function Drain(g: Grid, moves: seq<Move>, jumps: int, single: bool,
                 midPosition: (Position, Position) -> Position): (d: Drained)
    requires IsGrid(g)
    ensures IsGrid(d.grid)
    ensures d.ok ==> d.rest == []
    ensures !d.ok ==> |d.rest| < |moves| && d.rest == moves[|moves| - |d.rest|..]
    decreases |moves|
  {
    if |moves| == 0 then Drained(g, [], jumps, single, true)
    else
      var o := MakeMoveOn(g, moves[0], jumps, single, midPosition);
      if !o.ok then Drained(o.grid, moves[1..], o.jumps, o.single, false)
      else
        var d := Drain(o.grid, moves[1..], o.jumps, o.single, midPosition);
        if d.ok then d else SuffixOfTail(moves, |d.rest|); d
  }

  /** A suffix of the tail of a sequence is the suffix of the same length of the sequence. */
  lemma SuffixOfTail(moves: seq<Move>, n: nat)
    requires n < |moves|
    ensures moves[1..][|moves| - 1 - n..] == moves[|moves| - n..]
  {
  }

  /**
   * Moves are applied front to back: draining `first + second` drains
   * `first`, and only if all of it succeeds goes on with `second` from the
   * board reached; otherwise it stops with `second` still queued.
   */
  lemma {:induction false} DrainAppend(g: Grid, first: seq<Move>, second: seq<Move>, jumps: int, single: bool,
                                       midPosition: (Position, Position) -> Position)
    requires IsGrid(g)
    ensures var d := Drain(g, first, jumps, single, midPosition);
      Drain(g, first + second, jumps, single, midPosition)
        == if d.ok then Drain(d.grid, second, d.jumps, d.single, midPosition)
           else d.(rest := d.rest + second)
    decreases |first|
  {
    if |first| > 0 {
      assert (first + second)[0] == first[0];
      assert (first + second)[1..] == first[1..] + second;
      var o := MakeMoveOn(g, first[0], jumps, single, midPosition);
      if o.ok {
        DrainAppend(o.grid, first[1..], second, o.jumps, o.single, midPosition);
      }
    } else {
      assert first + second == second;
    }
  }

  /**
   * `submitTurn`: refused on an empty queue; otherwise drains the queue onto
   * the board and is TURN_SUBMITTED only if every move succeeded.
   */
  function Submit(t: TurnRecord, g: Grid, midPosition: (Position, Position) -> Position): (r: (TurnRecord, Grid, bool))
    requires IsGrid(g)
    ensures IsGrid(r.1)
    ensures |t.pending| == 0 ==> r == (t, g, false)
    ensures r.2 ==> r.0.state == TURN_SUBMITTED && r.0.pending == []
    ensures !r.2 ==> r.0.state == t.state
  {
    if |t.pending| == 0 then (t, g, false)
    else
      var d := Drain(g, t.pending, t.jumps, t.single, midPosition);
      (TurnRecord(d.rest, if d.ok then TURN_SUBMITTED else t.state, d.single, d.jumps), d.grid, d.ok)
  }

  /** A submitted turn has applied its whole queue; a refused one is not submitted. */
  lemma SubmitOutcome(t: TurnRecord, g: Grid, midPosition: (Position, Position) -> Position)
    requires IsGrid(g)
    ensures var (t', g', ok) := Submit(t, g, midPosition);
      && (|t.pending| == 0 ==> !ok && t' == t && g' == g)
      && (ok ==> t'.state == TURN_SUBMITTED && t'.pending == [] && |t.pending| > 0)
      && (!ok ==> t'.state == t.state)
      && (ok <==> |t.pending| > 0 && Drain(g, t.pending, t.jumps, t.single, midPosition).ok)
  {
  }

  predicate CanResignIn(t: TurnRecord) {
    t.state == EMPTY_TURN
  }

  predicate IsSubmittedIn(t: TurnRecord) {
    t.state == TURN_SUBMITTED
  }

  /**
   * A turn can be resigned from only before any move is queued, and never once
   * it has been submitted.
   */
  lemma ResignOnlyWhenNothingQueued(t: TurnRecord)
    requires TurnInvariant(t)
    ensures CanResignIn(t) <==> |t.pending| == 0
    ensures !IsSubmittedIn(t)
  {
  }

  class Turn {
    var matrix: Grid
    const player: Player
    const validator: MoveValidator
    const midPosition: (Position, Position) -> Position
    var pendingMoves: seq<Move>
    var state: TurnState
    var single: bool
    var jumps: int

    function Record(): TurnRecord
      reads this
    {
      TurnRecord(pendingMoves, state, single, jumps)
    }

    ghost predicate Valid()
      reads this
    {
      IsGrid(matrix)
    }

    constructor (matrix: Grid, player: Player, validator: MoveValidator,
                 midPosition: (Position, Position) -> Position)
      requires IsGrid(matrix)
      ensures Valid() && Record() == NewTurn()
      ensures this.matrix == matrix && this.player == player
      ensures this.validator == validator && this.midPosition == midPosition
    {
      this.matrix := matrix;
      this.player := player;
      this.validator := validator;
      this.midPosition := midPosition;
      single := false;
      jumps := 0;
      pendingMoves := [];
      state := EMPTY_TURN;
    }

    method ValidateMove(move: Move) returns (valid: bool)
      modifies this
      ensures (Record(), valid) == Validate(old(Record()), move, validator)
      ensures matrix == old(matrix)
    {
      var hasJumped := false;
      var forcedJump := validator.forcedJump(move);
      if jumps > 0 {
        hasJumped := true;
      }
      if move.singleAttempt && (hasJumped || forcedJump) {
        return false;
      }
      if !single && validator.validateMove(move) {
        pendingMoves := pendingMoves + [move];
        state := STABLE_TURN;
        if move.singleAttempt {
          single := true;
        }
        if move.jumpAttempt {
          jumps := jumps + 1;
        }
        return true;
      }
      return false;
    }

    method SubmitTurn() returns (ok: bool)
      requires Valid()
      modifies this
      ensures Valid()
      ensures (Record(), matrix, ok) == Submit(old(Record()), old(matrix), midPosition)
    {
      if |pendingMoves| == 0 {
        return false;
      }
      ghost var target := Drain(matrix, pendingMoves, jumps, single, midPosition);
      while |pendingMoves| > 0
        invariant IsGrid(matrix)
        invariant state == old(state)
        invariant Drain(matrix, pendingMoves, jumps, single, midPosition) == target
        decreases |pendingMoves|
      {
        var move := pendingMoves[0];
        pendingMoves := pendingMoves[1..];
        var next, moved := MakeMove(matrix, move);
        matrix := next;
        if !moved {
          return false;
        }
      }
      state := TURN_SUBMITTED;
      ok := true;
    }

    method MakeMove(board: Grid, move: Move) returns (board': Grid, ok: bool)
      requires IsGrid(board)
      modifies this`jumps, this`single
      ensures MoveOutcome(board', jumps, single, ok)
        == MakeMoveOn(board, move, old(jumps), old(single), midPosition)
    {
      if move.jumpAttempt {
        jumps := jumps + 1;
        var mid := midPosition(move.end, move.start);
        var (moved, endSq, startSq, midSq) := JumpInto(At(board, move.end), At(board, move.start), At(board, mid));
        ok := moved;
        board' := if ok then Put(Put(Put(board, move.end, endSq), move.start, startSq), mid, midSq) else board;
      } else {
        single := true;
        var (moved, endSq, startSq) := MoveInto(At(board, move.end), At(board, move.start));
        ok := moved;
        board' := if ok then Put(Put(board, move.end, endSq), move.start, startSq) else board;
      }
    }

    method BackupMove() returns (backedUp: bool)
      modifies this
      ensures (Record(), backedUp) == Backup(old(Record()))
      ensures matrix == old(matrix)
    {
      if |pendingMoves| > 0 {
        pendingMoves := pendingMoves[..|pendingMoves| - 1];
        if |pendingMoves| == 0 {
          state := EMPTY_TURN;
          jumps := 0;
          single := false;
        }
        if jumps > 0 {
          jumps := jumps - 1;
        }
        single := false;
        return true;
      }
      return false;
    }

    predicate IsMyTurn(p: Player) {
      player.Equals(p)
    }

    predicate IsSubmitted()
      reads this
    {
      IsSubmittedIn(Record())
    }

    predicate CanResign()
      reads this
    {
      CanResignIn(Record())
    }
  }
}
