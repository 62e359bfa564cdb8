/**
 * A board cell (`Space`). Its class is known only through SpaceTest.java. The
 * model agrees with every assertion there and decides the cases the test
 * leaves open: the state each operation leaves behind and returns, what an
 * OCCUPIED or INVALID space does with an added piece, that a failed jump
 * leaves the captured space alone, and that a space holds a piece only when
 * it is OCCUPIED. The value `Square` and the
 * functions on it specify each operation; the class `Space` performs them in
 * place and is proved against them.
 */
module Spaces {
  import opened Options
  import opened Pieces

  datatype SpaceState = INVALID | OPEN | OCCUPIED

  /** The observable contents of a space: its cell index, its state, its piece (null as None). */
  datatype Square = Square(cellIdx: int, state: SpaceState, piece: Option<Piece>)

  /**
   * A space holds a piece only when it is OCCUPIED. The converse is not part of
   * it: the state constructor can make an OCCUPIED space with no piece.
   */
  predicate Consistent(s: Square) {
    s.piece.Some? ==> s.state == OCCUPIED
  }

  /** `Space(cellIdx, piece)`: OCCUPIED holding the piece, or OPEN for a null piece. */
  function SquareOfPiece(cellIdx: int, piece: Option<Piece>): (s: Square)
    ensures Consistent(s) && s.cellIdx == cellIdx && s.piece == piece
    ensures s.state != INVALID
    ensures s.state == OCCUPIED <==> piece.Some?
  {
    if piece.None? then Square(cellIdx, OPEN, None) else Square(cellIdx, OCCUPIED, piece)
  }

  /** `Space(cellIdx, state)`: the given state and no piece. */
  function SquareOfState(cellIdx: int, state: SpaceState): (s: Square)
    ensures Consistent(s) && s.cellIdx == cellIdx && s.state == state && s.piece.None?
  {
    Square(cellIdx, state, None)
  }

  /** `isValid`: a piece may move here. */
  predicate IsValidSquare(s: Square) {
    s.state == OPEN
  }

  predicate IsOpenSquare(s: Square) {
    s.state == OPEN
  }

  predicate IsOccupiedSquare(s: Square) {
    s.state == OCCUPIED
  }

  /** `isValid` holds of an OPEN space only, and never of an INVALID or OCCUPIED one. */
  lemma ValidMeansOpen(s: Square)
    ensures IsValidSquare(s) <==> IsOpenSquare(s)
    ensures s.state == INVALID ==> !IsValidSquare(s)
    ensures IsOccupiedSquare(s) ==> !IsValidSquare(s) && !IsOpenSquare(s)
  {
  }

  /**
   * `addPiece`: an OPEN space takes the piece and becomes OCCUPIED; any other
   * space refuses it. The result is the space's state afterwards.
   */
  function AddPieceTo(s: Square, p: Piece): (r: (Square, SpaceState))
    ensures r.1 == r.0.state && r.0.cellIdx == s.cellIdx
    ensures s.state == OPEN ==> r.0.state == OCCUPIED && r.0.piece == Some(p)
    ensures s.state != OPEN ==> r.0 == s
  {
    if s.state == OPEN then (Square(s.cellIdx, OCCUPIED, Some(p)), OCCUPIED) else (s, s.state)
  }

  /**
   * `removePiece`: the space becomes OPEN with no piece, except an INVALID
   * space, which stays as it is. The result is the space's state afterwards.
   */
  function RemovePieceFrom(s: Square): (r: (Square, SpaceState))
    ensures r.1 == r.0.state && r.0.cellIdx == s.cellIdx
    ensures s.state == INVALID ==> r.0 == s
    ensures s.state != INVALID ==> r.1 == OPEN && r.0.piece.None?
  {
    if s.state == INVALID then (s, INVALID) else (Square(s.cellIdx, OPEN, None), OPEN)
  }

  /**
   * `dest.movePieceFrom(src)`: refused (false, nothing changes) unless the
   * destination is OPEN and the source holds a piece; otherwise the piece
   * moves, the destination becomes OCCUPIED and the source OPEN.
   */
  function MoveInto(dest: Square, src: Square): (r: (bool, Square, Square))
    ensures r.0 <==> dest.state == OPEN && src.piece.Some?
    ensures r.0 ==> r.1 == Square(dest.cellIdx, OCCUPIED, src.piece) && r.2 == Square(src.cellIdx, OPEN, None)
    ensures !r.0 ==> r.1 == dest && r.2 == src
  {
    if dest.state != OPEN || src.piece.None? then (false, dest, src)
    else (true, Square(dest.cellIdx, OCCUPIED, src.piece), Square(src.cellIdx, OPEN, None))
  }

  /**
   * `dest.jumpPieceMove(src, captured)`: a move as above that, when it
   * succeeds, also empties the captured space.
   */
  function JumpInto(dest: Square, src: Square, captured: Square): (r: (bool, Square, Square, Square))
    ensures r.0 == MoveInto(dest, src).0
    ensures r.0 ==> r.1 == MoveInto(dest, src).1 && r.2 == MoveInto(dest, src).2
    ensures r.0 ==> r.3 == RemovePieceFrom(captured).0
    ensures !r.0 ==> r.1 == dest && r.2 == src && r.3 == captured
  {
    var (ok, d, s) := MoveInto(dest, src);
    if ok then (true, d, s, RemovePieceFrom(captured).0) else (false, dest, src, captured)
  }

  /** The number of pieces held by a list of squares. */
  function PieceCount(ss: seq<Square>): nat {
    if |ss| == 0 then 0 else (if ss[0].piece.Some? then 1 else 0) + PieceCount(ss[1..])
  }

  /** Every operation keeps a consistent space consistent, and keeps its cell index. */
  lemma OperationsKeepConsistency(s: Square, t: Square, u: Square, p: Piece)
    requires Consistent(s) && Consistent(t) && Consistent(u)
    ensures Consistent(AddPieceTo(s, p).0) && Consistent(RemovePieceFrom(s).0)
    ensures Consistent(MoveInto(s, t).1) && Consistent(MoveInto(s, t).2)
    ensures var r := JumpInto(s, t, u); Consistent(r.1) && Consistent(r.2) && Consistent(r.3)
    ensures MoveInto(s, t).1.cellIdx == s.cellIdx && MoveInto(s, t).2.cellIdx == t.cellIdx
  {
  }

  /**
   * `movePieceFrom` succeeds exactly when the destination is OPEN and the
   * source has a piece; the piece arrives unchanged and no piece appears or
   * disappears.
   */
  lemma MoveConservesPieces(dest: Square, src: Square)
    requires Consistent(dest)
    ensures var (ok, d, s) := MoveInto(dest, src);
      && (ok <==> dest.state == OPEN && src.piece.Some?)
      && (ok ==> d.piece == src.piece && d.state == OCCUPIED && s.state == OPEN && s.piece.None?)
      && PieceCount([d, s]) == PieceCount([dest, src])
  {
    var (ok, d, s) := MoveInto(dest, src);
    PairCount(d, s);
    PairCount(dest, src);
  }

  lemma PairCount(a: Square, b: Square)
    ensures PieceCount([a, b]) == (if a.piece.Some? then 1 else 0) + (if b.piece.Some? then 1 else 0)
  {
    assert [a, b][1..] == [b];
    assert [b][1..] == [];
    assert PieceCount([b]) == (if b.piece.Some? then 1 else 0) + PieceCount([]);
    assert PieceCount([a, b]) == (if a.piece.Some? then 1 else 0) + PieceCount([b]);
  }

  /** Adding to an OPEN space and then removing again restores the space. */
  lemma AddThenRemoveRestores(s: Square, p: Piece)
    requires Consistent(s) && s.state == OPEN
    ensures RemovePieceFrom(AddPieceTo(s, p).0).0 == s
  {
  }

  /** Removing and then adding leaves a playable space holding exactly the new piece. */
  lemma RemoveThenAddHoldsExactly(s: Square, p: Piece)
    ensures s.state != INVALID ==>
      AddPieceTo(RemovePieceFrom(s).0, p).0 == Square(s.cellIdx, OCCUPIED, Some(p))
    ensures s.state == INVALID ==> AddPieceTo(RemovePieceFrom(s).0, p).0 == s
  {
  }

  /** An INVALID space never changes and never takes a piece. */
  lemma InvalidIsImmutable(s: Square, t: Square, p: Piece)
    requires s.state == INVALID
    ensures AddPieceTo(s, p) == (s, INVALID) && RemovePieceFrom(s) == (s, INVALID)
    ensures MoveInto(s, t) == (false, s, t)
  {
  }

  /** A Space object: SpaceTest.java's subject, updated in place. */
  class Space {
    const cellIdx: int
    var state: SpaceState
    var piece: Option<Piece>

    function Value(): Square
      reads this
    {
      Square(cellIdx, state, piece)
    }

    ghost predicate Valid()
      reads this
    {
      Consistent(Value())
    }

    constructor WithPiece(cellIdx: int, piece: Option<Piece>)
      ensures Valid() && Value() == SquareOfPiece(cellIdx, piece)
    {
      this.cellIdx := cellIdx;
      this.state := if piece.None? then OPEN else OCCUPIED;
      this.piece := piece;
    }

    constructor WithState(cellIdx: int, state: SpaceState)
      ensures Valid() && Value() == SquareOfState(cellIdx, state)
    {
      this.cellIdx := cellIdx;
      this.state := state;
      this.piece := None;
    }

    predicate IsValid()
      reads this
    {
      IsValidSquare(Value())
    }

    predicate IsOpen()
      reads this
    {
      IsOpenSquare(Value())
    }

    predicate IsOccupied()
      reads this
    {
      IsOccupiedSquare(Value())
    }

    method AddPiece(p: Piece) returns (st: SpaceState)
      requires Valid()
      modifies this
      ensures Valid() && (Value(), st) == AddPieceTo(old(Value()), p)
    {
      if state == OPEN {
        piece := Some(p);
        state := OCCUPIED;
      }
      st := state;
    }

    method RemovePiece() returns (st: SpaceState)
      requires Valid()
      modifies this
      ensures Valid() && (Value(), st) == RemovePieceFrom(old(Value()))
    {
      if state != INVALID {
        piece := None;
        state := OPEN;
      }
      st := state;
    }

    /** `movePieceFrom(source)`, with a null source refused. */
    method MovePieceFrom(source: Space?) returns (ok: bool)
      requires Valid() && (source != null ==> source.Valid())
      modifies this, source
      ensures Valid() && (source != null ==> source.Valid())
      ensures source == null ==> !ok && Value() == old(Value())
      ensures source != null ==>
        (ok, Value(), source.Value()) == MoveInto(old(Value()), old(source.Value()))
    {
      if source == null || state != OPEN || source.piece.None? {
        return false;
      }
      piece := source.piece;
      state := OCCUPIED;
      source.piece := None;
      source.state := OPEN;
      ok := true;
    }

    /** `clone`: a new space with the same cell index, state and piece. */
    method Clone() returns (c: Space)
      requires Valid()
      ensures fresh(c) && c.Valid() && c.Value() == Value() && Equals(c)
    {
      c := new Space.WithState(cellIdx, state);
      c.piece := piece;
    }

    /** `equals(Object)`: another Space with the same cell index, state and piece. */
    predicate Equals(other: object?)
      reads this, other
    {
      other is Space && (other as Space).Value() == Value()
    }
  }

  /**
   * Spaces that differ in cell index, state or piece are unequal, and a space
   * never equals null.
   */
  lemma EqualsComparesAllFields(a: Space, b: Space)
    ensures a.Equals(b) <==> a.cellIdx == b.cellIdx && a.state == b.state && a.piece == b.piece
    ensures !a.Equals(null)
  {
  }
}
