/** The piece entity of pieces.js: its colour, its kind (the JS subclass), its
    classical position or its two superposed positions, and the pawn's
    `hasMoved` flag. Move generation, which pieces.js also holds, is in module
    Moves because it needs the board's ray casting. */
module Pieces {
  import opened Wrappers
  import opened Coords

  /** 'w' and 'b'. */
  datatype Color = White | Black

  /** The other colour (`currentPlayer === 'w' ? 'b' : 'w'`). */
  function Opponent(c: Color): (r: Color)
    ensures r != c
  {
    if c == White then Black else White
  }

  /** The subclasses of `Piece`; `type` is the lower-cased class name. */
  datatype Kind = Pawn | Rook | Knight | Bishop | Queen | King

  /** The fields of a piece object. `position` is null while the piece is in
      superposition; `hasMoved` exists only on pawns in the source and stays
      false for every other kind here. */
  datatype Piece = Piece(
    color: Color,
    kind: Kind,
    position: Option<string>,
    inSuperposition: bool,
    quantumPositions: seq<string>,
    hasMoved: bool)

  /** A piece whose `position` is a real square id. */
  predicate HasSquare(p: Piece) {
    p.position.Some? && IsSquareId(p.position.value)
  }

  /** The classical state: one square, no quantum positions. */
  predicate IsClassical(p: Piece) {
    !p.inSuperposition && p.quantumPositions == [] && HasSquare(p)
  }

  /** The superposed state `executeQuantumMove` creates: no position, two
      quantum positions that are square ids. */
  predicate IsSuperposed(p: Piece) {
    && p.inSuperposition
    && p.position.None?
    && |p.quantumPositions| == 2
    && IsSquareId(p.quantumPositions[0])
    && IsSquareId(p.quantumPositions[1])
  }

  predicate WellFormedPiece(p: Piece) {
    IsClassical(p) || IsSuperposed(p)
  }

  /** `new Pawn(color, position)`, `new Rook(...)`, ...: a fresh piece is
      classical at the given square and a fresh pawn has not moved. */
  function NewPiece(color: Color, kind: Kind, position: string): (p: Piece)
    ensures p.color == color && p.kind == kind && p.position == Some(position)
    ensures !p.inSuperposition && p.quantumPositions == [] && !p.hasMoved
    ensures IsSquareId(position) ==> IsClassical(p)
  {
    Piece(color, kind, Some(position), false, [], false)
  }
}
