/**
 * Piece.java: an immutable checkers piece, a type and a colour fixed by the
 * constructor. A datatype value captures that nothing reassigns them.
 */
module Pieces {
  import opened Options

  datatype PieceType = SINGLE | KING

  datatype Color = RED | WHITE

  datatype Piece = Piece(ty: PieceType, col: Color)

  /** `equals(Object)`: false for null, otherwise type and colour must both match. */
  predicate Equals(p: Piece, other: Option<Piece>): (b: bool)
    ensures b <==> other == Some(p)
  {
    if other.None? then false
    else if p.ty != other.value.ty then false
    else if p.col != other.value.col then false
    else true
  }

  /** `equals` is value equality on the two fields; it is reflexive and symmetric. */
  lemma EqualsIsValueEquality(p: Piece, q: Piece)
    ensures Equals(p, Some(q)) <==> p.ty == q.ty && p.col == q.col
    ensures Equals(p, Some(q)) <==> p == q
    ensures Equals(p, Some(p))
    ensures Equals(p, Some(q)) <==> Equals(q, Some(p))
    ensures !Equals(p, None)
  {
  }

  /** `clone`: a new piece built from the same type and colour. */
  function Clone(p: Piece): (c: Piece)
    ensures Equals(p, Some(c)) && Equals(c, Some(p))
  {
    Piece(p.ty, p.col)
  }

  function ColorWord(c: Color): string {
    if c == RED then "Red " else "White "
  }

  function TypeWord(t: PieceType): string {
    if t == SINGLE then "Single" else "King"
  }

  /** `toString`: "Piece: ", then the colour word, then the type word. */
  function ToString(p: Piece): (s: string)
    ensures |s| > 7 && s[..7] == "Piece: "
  {
    "Piece: " + ColorWord(p.col) + TypeWord(p.ty)
  }

  /** The text of a piece determines the piece: no two pieces print alike. */
  lemma {:induction false} ToStringInjective(p: Piece, q: Piece)
    ensures ToString(p) == ToString(q) <==> p == q
  {
    if p.col != q.col {
      assert ToString(p)[7] != ToString(q)[7];
    } else if p.ty != q.ty {
      var s, t := ToString(p), ToString(q);
      assert s[|s| - 1] != t[|t| - 1];
    }
  }
}
