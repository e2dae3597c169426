/** Move generation of pieces.js: `getPossibleMoves` of each piece class.
    Pawns, knights and kings walk a list of offsets and collect squares into a
    local array; rooks, bishops and queens delegate to the board's ray
    casting. Every generator looks only at `board.pieces`, so a square held
    only by a superposed piece counts as empty. */
module Moves {
  import opened Wrappers
  import opened Coords
  import opened Pieces
  import opened Board

  function Abs(x: int): nat {
    if x < 0 then -x else x
  }

  /** The square (c, r) when it is on the board and does not hold a piece of
      `color`: what one pass of the knight's or the king's loop pushes. */
  function TargetAt(pieces: PieceMap, color: Color, c: int, r: int): seq<string> {
    match GetPosition(c, r)
    case None => []
    case Some(t) => if !OwnPiece(pieces, t, color) then [t] else []
  }

  /** The square at offset `o` from (col, row). */
  function StepAt(pieces: PieceMap, color: Color, col: int, row: int, o: (int, int)): seq<string> {
    TargetAt(pieces, color, col + o.0, row + o.1)
  }

  /** The squares the loop collects over `offsets`, in order. */
  function StepTargets(pieces: PieceMap, color: Color, col: int, row: int, offsets: seq<(int, int)>): seq<string>
    decreases |offsets|
  {
    if offsets == [] then []
    else
      StepTargets(pieces, color, col, row, offsets[..|offsets| - 1])
      + StepAt(pieces, color, col, row, offsets[|offsets| - 1])
  }

  /** One more iteration of the loop appends the next offset's square. */
  lemma StepTargetsSnoc(pieces: PieceMap, color: Color, col: int, row: int, offsets: seq<(int, int)>, k: int)
    requires 0 <= k < |offsets|
    ensures StepTargets(pieces, color, col, row, offsets[..k + 1])
         == StepTargets(pieces, color, col, row, offsets[..k]) + TargetAt(pieces, color, col + offsets[k].0, row + offsets[k].1)
  {
    assert offsets[..k + 1][..k] == offsets[..k];
  }

  /** Every collected square comes from one offset `m`. */
  lemma {:induction false} StepTargetsSource(pieces: PieceMap, color: Color, col: int, row: int, offsets: seq<(int, int)>, t: string)
    returns (m: int)
    requires t in StepTargets(pieces, color, col, row, offsets)
    ensures 0 <= m < |offsets| && GetPosition(col + offsets[m].0, row + offsets[m].1) == Some(t)
    ensures !OwnPiece(pieces, t, color)
    decreases |offsets|
  {
    var init := offsets[..|offsets| - 1];
    if t in StepTargets(pieces, color, col, row, init) {
      m := StepTargetsSource(pieces, color, col, row, init, t);
      assert init[m] == offsets[m];
    } else {
      m := |offsets| - 1;
    }
  }

  /** Every on-board square at one of the offsets is collected unless it holds
      a piece of `color`. */
  lemma {:induction false} StepTargetsInclude(pieces: PieceMap, color: Color, col: int, row: int, offsets: seq<(int, int)>, m: int, t: string)
    requires 0 <= m < |offsets| && GetPosition(col + offsets[m].0, row + offsets[m].1) == Some(t)
    requires !OwnPiece(pieces, t, color)
    ensures t in StepTargets(pieces, color, col, row, offsets)
    decreases |offsets|
  {
    var init := offsets[..|offsets| - 1];
    if m < |init| {
      assert init[m] == offsets[m];
      StepTargetsInclude(pieces, color, col, row, init, m, t);
    }
  }

  // ---------------------------------------------------------------- Knight

  const KnightOffsets: seq<(int, int)> := [(1, 2), (1, -2), (-1, 2), (-1, -2), (2, 1), (2, -1), (-2, 1), (-2, -1)]

  /** The L-shaped jump of Article 3.6 of the FIDE Laws of Chess. */
  predicate IsKnightJump(dc: int, dr: int) {
    (Abs(dc) == 1 && Abs(dr) == 2) || (Abs(dc) == 2 && Abs(dr) == 1)
  }

  function KnightTargets(pieces: PieceMap, color: Color, col: int, row: int): seq<string> {
    StepTargets(pieces, color, col, row, KnightOffsets)
  }

  lemma KnightOffsetIndex(dc: int, dr: int) returns (m: int)
    requires IsKnightJump(dc, dr)
    ensures 0 <= m < |KnightOffsets| && KnightOffsets[m] == (dc, dr)
  {
    m := if dc == 1 && dr == 2 then 0 else if dc == 1 && dr == -2 then 1
      else if dc == -1 && dr == 2 then 2 else if dc == -1 && dr == -2 then 3
      else if dc == 2 && dr == 1 then 4 else if dc == 2 && dr == -1 then 5
      else if dc == -2 && dr == 1 then 6 else 7;
  }

  /** Every listed offset is a knight's jump. */
  lemma KnightOffsetJump(m: int)
    requires 0 <= m < |KnightOffsets|
    ensures IsKnightJump(KnightOffsets[m].0, KnightOffsets[m].1)
  {
  }

  lemma KnightTargetsSound(pieces: PieceMap, color: Color, col: int, row: int, t: string)
    requires t in KnightTargets(pieces, color, col, row)
    ensures IsSquareId(t) && !OwnPiece(pieces, t, color)
    ensures IsKnightJump(GetCoords(t).0 - col, GetCoords(t).1 - row)
  {
    var m := StepTargetsSource(pieces, color, col, row, KnightOffsets, t);
    var o := KnightOffsets[m];
    KnightOffsetJump(m);
    PositionRoundTrip(col + o.0, row + o.1);
  }

  lemma KnightTargetsComplete(pieces: PieceMap, color: Color, col: int, row: int, t: string)
    requires IsSquareId(t) && !OwnPiece(pieces, t, color)
    requires IsKnightJump(GetCoords(t).0 - col, GetCoords(t).1 - row)
    ensures t in KnightTargets(pieces, color, col, row)
  {
    var m := KnightOffsetIndex(GetCoords(t).0 - col, GetCoords(t).1 - row);
    CoordsRoundTrip(t);
    StepTargetsInclude(pieces, color, col, row, KnightOffsets, m, t);
  }

  /** Knight targets are exactly the on-board squares a knight's jump away
      that are empty or hold a piece of the other colour. */
  lemma KnightTargetsExact(pieces: PieceMap, color: Color, col: int, row: int, t: string)
    ensures t in KnightTargets(pieces, color, col, row)
        <==> IsSquareId(t) && !OwnPiece(pieces, t, color)
             && IsKnightJump(GetCoords(t).0 - col, GetCoords(t).1 - row)
  {
    if t in KnightTargets(pieces, color, col, row) {
      KnightTargetsSound(pieces, color, col, row, t);
    }
    if IsSquareId(t) && !OwnPiece(pieces, t, color) && IsKnightJump(GetCoords(t).0 - col, GetCoords(t).1 - row) {
      KnightTargetsComplete(pieces, color, col, row, t);
    }
  }

  // ------------------------------------------------------------------ King

  /** The offsets in the order the king's nested loops visit them (dCol
      outer, dRow inner, both from -1 to 1, skipping (0, 0)). */
  const KingOffsets: seq<(int, int)> := [(-1, -1), (-1, 0), (-1, 1), (0, -1), (0, 1), (1, -1), (1, 0), (1, 1)]

  /** A square at Chebyshev distance 1 (Article 3.8 of the FIDE Laws of
      Chess, without castling). */
  predicate IsKingStep(dc: int, dr: int) {
    Abs(dc) <= 1 && Abs(dr) <= 1 && (dc, dr) != (0, 0)
  }

  function KingTargets(pieces: PieceMap, color: Color, col: int, row: int): seq<string> {
    StepTargets(pieces, color, col, row, KingOffsets)
  }

  /** How many offsets the nested loops have visited on reaching (dCol, dRow). */
  function KingIndex(dCol: int, dRow: int): int {
    var raw := 3 * (dCol + 1) + (dRow + 1);
    if raw > 4 then raw - 1 else raw
  }

  /** How the visit count moves on from one dRow to the next. */
  lemma KingIndexNext(dCol: int, dRow: int)
    requires -1 <= dCol <= 1 && -1 <= dRow <= 1
    ensures KingIndex(dCol, dRow + 1) == KingIndex(dCol, dRow) + (if dCol == 0 && dRow == 0 then 0 else 1)
    ensures KingIndex(dCol, 2) == KingIndex(dCol + 1, -1)
  {
  }

  lemma KingOffsetAt(dCol: int, dRow: int)
    requires -1 <= dCol <= 1 && -1 <= dRow <= 1 && (dCol, dRow) != (0, 0)
    ensures 0 <= KingIndex(dCol, dRow) < |KingOffsets|
    ensures KingOffsets[KingIndex(dCol, dRow)].0 == dCol && KingOffsets[KingIndex(dCol, dRow)].1 == dRow
  {
    if dCol == -1 {
      assert KingIndex(dCol, dRow) == dRow + 1;
    } else if dCol == 0 {
      assert KingIndex(dCol, dRow) == if dRow == -1 then 3 else 4;
    } else {
      assert KingIndex(dCol, dRow) == dRow + 6;
    }
  }

  /** One pass of the inner loop at (dCol, dRow) appends that square. */
  lemma KingSnoc(pieces: PieceMap, color: Color, col: int, row: int, dCol: int, dRow: int)
    requires -1 <= dCol <= 1 && -1 <= dRow <= 1 && (dCol, dRow) != (0, 0)
    ensures StepTargets(pieces, color, col, row, KingOffsets[..KingIndex(dCol, dRow + 1)])
         == StepTargets(pieces, color, col, row, KingOffsets[..KingIndex(dCol, dRow)]) + TargetAt(pieces, color, col + dCol, row + dRow)
  {
    KingIndexNext(dCol, dRow);
    KingOffsetAt(dCol, dRow);
    StepTargetsSnoc(pieces, color, col, row, KingOffsets, KingIndex(dCol, dRow));
  }

  /** Every listed offset is a king's step. */
  lemma KingOffsetStep(m: int)
    requires 0 <= m < |KingOffsets|
    ensures IsKingStep(KingOffsets[m].0, KingOffsets[m].1)
  {
  }

  lemma KingTargetsSound(pieces: PieceMap, color: Color, col: int, row: int, t: string)
    requires t in KingTargets(pieces, color, col, row)
    ensures IsSquareId(t) && !OwnPiece(pieces, t, color)
    ensures IsKingStep(GetCoords(t).0 - col, GetCoords(t).1 - row)
  {
    var m := StepTargetsSource(pieces, color, col, row, KingOffsets, t);
    var o := KingOffsets[m];
    KingOffsetStep(m);
    PositionRoundTrip(col + o.0, row + o.1);
  }

  lemma KingTargetsComplete(pieces: PieceMap, color: Color, col: int, row: int, t: string)
    requires IsSquareId(t) && !OwnPiece(pieces, t, color)
    requires IsKingStep(GetCoords(t).0 - col, GetCoords(t).1 - row)
    ensures t in KingTargets(pieces, color, col, row)
  {
    var dc, dr := GetCoords(t).0 - col, GetCoords(t).1 - row;
    KingOffsetAt(dc, dr);
    CoordsRoundTrip(t);
    StepTargetsInclude(pieces, color, col, row, KingOffsets, KingIndex(dc, dr), t);
  }

  /** King targets are exactly the on-board squares at Chebyshev distance 1
      that are empty or hold a piece of the other colour. */
  lemma KingTargetsExact(pieces: PieceMap, color: Color, col: int, row: int, t: string)
    ensures t in KingTargets(pieces, color, col, row)
        <==> IsSquareId(t) && !OwnPiece(pieces, t, color)
             && IsKingStep(GetCoords(t).0 - col, GetCoords(t).1 - row)
  {
    if t in KingTargets(pieces, color, col, row) {
      KingTargetsSound(pieces, color, col, row, t);
    }
    if IsSquareId(t) && !OwnPiece(pieces, t, color) && IsKingStep(GetCoords(t).0 - col, GetCoords(t).1 - row) {
      KingTargetsComplete(pieces, color, col, row, t);
    }
  }

  // ------------------------------------------------------------------ Pawn

  /** `this.color === 'w' ? 1 : -1`: white pawns move up the ranks. */
  function Direction(color: Color): int {
    if color == White then 1 else -1
  }

  /** The capture square at (c, r) when it holds a piece of the other colour. */
  function CaptureAt(pieces: PieceMap, color: Color, c: int, r: int): seq<string> {
    match GetPosition(c, r)
    case None => []
    case Some(t) => if t in pieces && pieces[t].color != color then [t] else []
  }

  /** The capture loop over `captureCols`. */
  function Captures(pieces: PieceMap, color: Color, cols: seq<int>, r: int): seq<string>
    decreases |cols|
  {
    if cols == [] then []
    else
      Captures(pieces, color, cols[..|cols| - 1], r)
      + CaptureAt(pieces, color, cols[|cols| - 1], r)
  }

  /** One more iteration of the capture loop appends that file's capture. */
  lemma CapturesSnoc(pieces: PieceMap, color: Color, cols: seq<int>, r: int, k: int)
    requires 0 <= k < |cols|
    ensures Captures(pieces, color, cols[..k + 1], r) == Captures(pieces, color, cols[..k], r) + CaptureAt(pieces, color, cols[k], r)
  {
    assert cols[..k + 1][..k] == cols[..k];
  }

  /** The capture loop over a left and a right file. */
  lemma CapturesPair(pieces: PieceMap, color: Color, a: int, b: int, r: int)
    ensures Captures(pieces, color, [a, b], r) == CaptureAt(pieces, color, a, r) + CaptureAt(pieces, color, b, r)
  {
    assert [a, b][..1] == [a];
    assert [a][..0] == [];
    assert Captures(pieces, color, [a], r) == Captures(pieces, color, [], r) + CaptureAt(pieces, color, a, r);
    assert Captures(pieces, color, [a, b], r) == Captures(pieces, color, [a], r) + CaptureAt(pieces, color, b, r);
  }

  /** The one-step square when it is on the board and empty. */
  function OneStep(pieces: PieceMap, color: Color, col: int, row: int): seq<string> {
    var one := GetPosition(col, row + Direction(color));
    if one.Some? && one.value !in pieces then [one.value] else []
  }

  /** The two-step square of an unmoved pawn when it and the square it passes
      are both on the board and empty. */
  function TwoStep(pieces: PieceMap, color: Color, hasMoved: bool, col: int, row: int): seq<string> {
    var one := GetPosition(col, row + Direction(color));
    var two := GetPosition(col, row + 2 * Direction(color));
    if !hasMoved && one.Some? && one.value !in pieces && two.Some? && two.value !in pieces
    then [two.value] else []
  }

  /** What `Pawn.getPossibleMoves` returns: one step, two steps, then the
      captures on the left and on the right. */
  function PawnTargets(pieces: PieceMap, color: Color, hasMoved: bool, col: int, row: int): seq<string> {
    OneStep(pieces, color, col, row) + TwoStep(pieces, color, hasMoved, col, row)
    + Captures(pieces, color, [col - 1, col + 1], row + Direction(color))
  }

  /** Pawn targets, exactly: the empty square ahead; the empty square two
      ahead of an unmoved pawn when the square between is also empty; the
      diagonal squares ahead that hold a piece of the other colour. */
  lemma PawnTargetsExact(pieces: PieceMap, color: Color, hasMoved: bool, col: int, row: int, t: string)
    ensures var d := Direction(color);
      t in PawnTargets(pieces, color, hasMoved, col, row)
      <==>
      || (GetPosition(col, row + d) == Some(t) && t !in pieces)
      || (&& !hasMoved && GetPosition(col, row + 2 * d) == Some(t) && t !in pieces
          && GetPosition(col, row + d).Some? && GetPosition(col, row + d).value !in pieces)
      || (&& (GetPosition(col - 1, row + d) == Some(t) || GetPosition(col + 1, row + d) == Some(t))
          && t in pieces && pieces[t].color != color)
  {
    CapturesPair(pieces, color, col - 1, col + 1, row + Direction(color));
  }

  /** Every pawn target is a square id one or two ranks ahead (in the pawn's
      direction), never holds a piece of the pawn's colour, and holds a piece
      of the other colour whenever it is on another file. */
  lemma PawnTargetsSound(pieces: PieceMap, color: Color, hasMoved: bool, col: int, row: int, t: string)
    requires t in PawnTargets(pieces, color, hasMoved, col, row)
    ensures IsSquareId(t) && !OwnPiece(pieces, t, color)
    ensures GetCoords(t).1 == row + Direction(color) || GetCoords(t).1 == row + 2 * Direction(color)
    ensures GetCoords(t).0 != col ==> t in pieces && pieces[t].color != color
    ensures GetCoords(t).1 == row + 2 * Direction(color) ==> !hasMoved
  {
    var d := Direction(color);
    PawnTargetsExact(pieces, color, hasMoved, col, row, t);
    if GetPosition(col, row + d) == Some(t) {
      PositionRoundTrip(col, row + d);
    } else if GetPosition(col, row + 2 * d) == Some(t) {
      PositionRoundTrip(col, row + 2 * d);
    } else if GetPosition(col - 1, row + d) == Some(t) {
      PositionRoundTrip(col - 1, row + d);
    } else {
      PositionRoundTrip(col + 1, row + d);
    }
  }

  // ------------------------------------------------------------- Dispatch

  /** A piece `getPossibleMoves` can run on: its position is a string
      `getCoords` reads without failing. */
  predicate Movable(p: Piece) {
    p.position.Some? && Parsable(p.position.value)
  }

  /** `piece.getPossibleMoves(board)` for every kind. */
  function MovesOf(pieces: PieceMap, p: Piece): seq<string>
    requires Movable(p)
  {
    var pos := p.position.value;
    var (col, row) := GetCoords(pos);
    match p.kind
    case Pawn => PawnTargets(pieces, p.color, p.hasMoved, col, row)
    case Rook => StraightTargets(pieces, pos, p.color)
    case Knight => KnightTargets(pieces, p.color, col, row)
    case Bishop => DiagonalTargets(pieces, pos, p.color)
    case Queen => StraightTargets(pieces, pos, p.color) + DiagonalTargets(pieces, pos, p.color)
    case King => KingTargets(pieces, p.color, col, row)
  }

  /** Every target of every piece is a square id other than the piece's own
      square and never holds a piece of the mover's colour. */
  lemma MovesOfSound(pieces: PieceMap, p: Piece, t: string)
    requires Movable(p) && t in MovesOf(pieces, p)
    ensures IsSquareId(t) && !OwnPiece(pieces, t, p.color)
    ensures GetCoords(t) != GetCoords(p.position.value) && t != p.position.value
  {
    var pos := p.position.value;
    var (col, row) := GetCoords(pos);
    match p.kind
    case Pawn => PawnTargetsSound(pieces, p.color, p.hasMoved, col, row, t);
    case Rook => StraightTargetsSound(pieces, pos, p.color, t);
    case Knight => KnightTargetsExact(pieces, p.color, col, row, t);
    case Bishop => DiagonalTargetsSound(pieces, pos, p.color, t);
    case Queen =>
      if t in StraightTargets(pieces, pos, p.color) {
        StraightTargetsSound(pieces, pos, p.color, t);
      } else {
        DiagonalTargetsSound(pieces, pos, p.color, t);
      }
    case King => KingTargetsExact(pieces, p.color, col, row, t);
  }

  /** The sliding pieces delegate to the ray casting: a rook takes the
      straight rays, a bishop the diagonal ones, and a queen both, which
      never share a square. */
  lemma SliderMovesOf(pieces: PieceMap, p: Piece, t: string)
    requires Movable(p)
    ensures p.kind == Rook ==> (t in MovesOf(pieces, p) <==> t in StraightTargets(pieces, p.position.value, p.color))
    ensures p.kind == Bishop ==> (t in MovesOf(pieces, p) <==> t in DiagonalTargets(pieces, p.position.value, p.color))
    ensures p.kind == Queen ==>
      && (t in MovesOf(pieces, p) <==>
            t in StraightTargets(pieces, p.position.value, p.color) || t in DiagonalTargets(pieces, p.position.value, p.color))
      && |MovesOf(pieces, p)| == |StraightTargets(pieces, p.position.value, p.color)| + |DiagonalTargets(pieces, p.position.value, p.color)|
      && !(t in StraightTargets(pieces, p.position.value, p.color) && t in DiagonalTargets(pieces, p.position.value, p.color))
  {
    StraightDiagonalDisjoint(pieces, p.position.value, p.color, t);
  }

  /** The eight squares around e1 as the king's loop sees them with only the
      king on the board. */
  lemma LoneKingSteps(pieces: PieceMap)
    requires pieces == map["e1" := NewPiece(White, King, "e1")]
    ensures StepAt(pieces, White, 4, 1, KingOffsets[0]) == []
    ensures StepAt(pieces, White, 4, 1, KingOffsets[1]) == ["d1"]
    ensures StepAt(pieces, White, 4, 1, KingOffsets[2]) == ["d2"]
    ensures StepAt(pieces, White, 4, 1, KingOffsets[3]) == []
    ensures StepAt(pieces, White, 4, 1, KingOffsets[4]) == ["e2"]
    ensures StepAt(pieces, White, 4, 1, KingOffsets[5]) == []
    ensures StepAt(pieces, White, 4, 1, KingOffsets[6]) == ["f1"]
    ensures StepAt(pieces, White, 4, 1, KingOffsets[7]) == ["f2"]
  {
    assert "d1" != "e1" && "d2" != "e1" && "e2" != "e1" && "f1" != "e1" && "f2" != "e1";
  }

  lemma LoneKingWest(pieces: PieceMap)
    requires pieces == map["e1" := NewPiece(White, King, "e1")]
    ensures StepTargets(pieces, White, 4, 1, KingOffsets[..4]) == ["d1", "d2"]
  {
    LoneKingSteps(pieces);
    assert KingOffsets[..0] == [];
    StepTargetsSnoc(pieces, White, 4, 1, KingOffsets, 0);
    StepTargetsSnoc(pieces, White, 4, 1, KingOffsets, 1);
    assert StepTargets(pieces, White, 4, 1, KingOffsets[..2]) == ["d1"];
    StepTargetsSnoc(pieces, White, 4, 1, KingOffsets, 2);
    StepTargetsSnoc(pieces, White, 4, 1, KingOffsets, 3);
  }

  lemma LoneKingTargets(pieces: PieceMap)
    requires pieces == map["e1" := NewPiece(White, King, "e1")]
    ensures KingTargets(pieces, White, 4, 1) == ["d1", "d2", "e2", "f1", "f2"]
  {
    LoneKingSteps(pieces);
    LoneKingWest(pieces);
    StepTargetsSnoc(pieces, White, 4, 1, KingOffsets, 4);
    StepTargetsSnoc(pieces, White, 4, 1, KingOffsets, 5);
    assert StepTargets(pieces, White, 4, 1, KingOffsets[..6]) == ["d1", "d2", "e2"];
    StepTargetsSnoc(pieces, White, 4, 1, KingOffsets, 6);
    StepTargetsSnoc(pieces, White, 4, 1, KingOffsets, 7);
    assert KingOffsets[..8] == KingOffsets;
  }

  /** A lone white king on e1 may go to d1, d2, e2, f1 and f2, in that order. */
  lemma LoneKingScenario()
    ensures MovesOf(map["e1" := NewPiece(White, King, "e1")], NewPiece(White, King, "e1"))
         == ["d1", "d2", "e2", "f1", "f2"]
  {
    assert GetCoords("e1") == (4, 1) by { IndexOfCols('e'); }
    LoneKingTargets(map["e1" := NewPiece(White, King, "e1")]);
  }

  // --------------------------------------------------------------- Methods

  /** The loop body the knight and the king share: look up the square at
      (newCol, newRow) and push it when it is on the board and empty or held
      by the other colour. */
  method PushTarget(board: BoardState, color: Color, newCol: int, newRow: int, moves0: seq<string>)
    returns (moves: seq<string>)
    ensures moves == moves0 + TargetAt(board.pieces, color, newCol, newRow)
  {
    moves := moves0;
    var targetPos := GetPosition(newCol, newRow);
    if targetPos.Some? {
      var targetPiece := board.GetPiece(targetPos.value);
      if targetPiece.None? || targetPiece.value.color != color {
        moves := moves + [targetPos.value];
      }
    }
  }

  /** `Knight.getPossibleMoves`. */
  method KnightMoves(board: BoardState, piece: Piece) returns (moves: seq<string>)
    requires Movable(piece)
    ensures moves == KnightTargets(board.pieces, piece.color, GetCoords(piece.position.value).0, GetCoords(piece.position.value).1)
  {
    moves := [];
    var (col, row) := GetCoords(piece.position.value);
    for k := 0 to |KnightOffsets|
      invariant moves == StepTargets(board.pieces, piece.color, col, row, KnightOffsets[..k])
    {
      StepTargetsSnoc(board.pieces, piece.color, col, row, KnightOffsets, k);
      var (dCol, dRow) := KnightOffsets[k];
      moves := PushTarget(board, piece.color, col + dCol, row + dRow, moves);
    }
    assert KnightOffsets[..|KnightOffsets|] == KnightOffsets;
  }

  /** `King.getPossibleMoves`: the outer loop over dCol. */
  method KingMoves(board: BoardState, piece: Piece) returns (moves: seq<string>)
    requires Movable(piece)
    ensures moves == KingTargets(board.pieces, piece.color, GetCoords(piece.position.value).0, GetCoords(piece.position.value).1)
  {
    moves := [];
    var (col, row) := GetCoords(piece.position.value);
    for dCol := -1 to 2
      invariant moves == StepTargets(board.pieces, piece.color, col, row, KingOffsets[..KingIndex(dCol, -1)])
    {
      moves := KingColumn(board, piece.color, col, row, dCol, moves);
    }
    assert KingOffsets[..KingIndex(2, -1)] == KingOffsets;
  }

  /** The inner loop of `King.getPossibleMoves` for one dCol: dRow from -1
      to 1, skipping the king's own square. */
  method KingColumn(board: BoardState, color: Color, col: int, row: int, dCol: int, moves0: seq<string>)
    returns (moves: seq<string>)
    requires -1 <= dCol <= 1
    requires moves0 == StepTargets(board.pieces, color, col, row, KingOffsets[..KingIndex(dCol, -1)])
    ensures moves == StepTargets(board.pieces, color, col, row, KingOffsets[..KingIndex(dCol + 1, -1)])
  {
    assert KingIndex(dCol, 2) == KingIndex(dCol + 1, -1);
    moves := moves0;
    for dRow := -1 to 2
      invariant moves == StepTargets(board.pieces, color, col, row, KingOffsets[..KingIndex(dCol, dRow)])
    {
      moves := KingStep(board, color, col, row, dCol, dRow, moves);
    }
  }

  /** The body of the inner loop for (dCol, dRow): skip the king's own
      square, otherwise push the target. */
  method KingStep(board: BoardState, color: Color, col: int, row: int, dCol: int, dRow: int, moves0: seq<string>)
    returns (moves: seq<string>)
    requires -1 <= dCol <= 1 && -1 <= dRow <= 1
    requires moves0 == StepTargets(board.pieces, color, col, row, KingOffsets[..KingIndex(dCol, dRow)])
    ensures moves == StepTargets(board.pieces, color, col, row, KingOffsets[..KingIndex(dCol, dRow + 1)])
  {
    if dCol == 0 && dRow == 0 {
      KingIndexNext(dCol, dRow);
      return moves0;
    }
    KingSnoc(board.pieces, color, col, row, dCol, dRow);
    moves := PushTarget(board, color, col + dCol, row + dRow, moves0);
  }

  /** `Pawn.getPossibleMoves`. */
  method PawnMoves(board: BoardState, piece: Piece) returns (moves: seq<string>)
    requires Movable(piece)
    ensures moves == PawnTargets(board.pieces, piece.color, piece.hasMoved, GetCoords(piece.position.value).0, GetCoords(piece.position.value).1)
  {
    var (col, row) := GetCoords(piece.position.value);
    var direction := if piece.color == White then 1 else -1;
    var steps := PawnForward(board, piece.color, piece.hasMoved, col, row);
    var captures := PawnCaptures(board, piece.color, [col - 1, col + 1], row + direction);
    moves := steps + captures;
  }

  /** The capture loop over `captureCols`, collecting into the same list
      after the forward moves. */
  method PawnCaptures(board: BoardState, color: Color, captureCols: seq<int>, r: int) returns (moves: seq<string>)
    ensures moves == Captures(board.pieces, color, captureCols, r)
  {
    moves := [];
    for k := 0 to |captureCols|
      invariant moves == Captures(board.pieces, color, captureCols[..k], r)
    {
      CapturesSnoc(board.pieces, color, captureCols, r, k);
      moves := PushCapture(board, color, captureCols[k], r, moves);
    }
    assert captureCols[..|captureCols|] == captureCols;
  }

  /** The pawn's one-step and two-step moves, before the capture loop. */
  method PawnForward(board: BoardState, color: Color, hasMoved: bool, col: int, row: int) returns (moves: seq<string>)
    ensures moves == OneStep(board.pieces, color, col, row) + TwoStep(board.pieces, color, hasMoved, col, row)
  {
    moves := [];
    var direction := if color == White then 1 else -1;
    var oneStep := GetPosition(col, row + direction);
    if oneStep.Some? && board.GetPiece(oneStep.value).None? {
      moves := moves + [oneStep.value];
    }
    assert moves == OneStep(board.pieces, color, col, row);
    if !hasMoved {
      var twoStep := GetPosition(col, row + 2 * direction);
      if oneStep.Some? && board.GetPiece(oneStep.value).None? && twoStep.Some? && board.GetPiece(twoStep.value).None? {
        moves := moves + [twoStep.value];
      }
    }
  }

  /** The body of the pawn's capture loop: push the square (c, r) when it is
      on the board and holds a piece of the other colour. */
  method PushCapture(board: BoardState, color: Color, c: int, r: int, moves0: seq<string>)
    returns (moves: seq<string>)
    ensures moves == moves0 + CaptureAt(board.pieces, color, c, r)
  {
    moves := moves0;
    var capturePos := GetPosition(c, r);
    if capturePos.Some? {
      var targetPiece := board.GetPiece(capturePos.value);
      if targetPiece.Some? && targetPiece.value.color != color {
        moves := moves + [capturePos.value];
      }
    }
  }

  /** `piece.getPossibleMoves(board)`: dispatch on the piece's class. */
  method GetPossibleMoves(board: BoardState, piece: Piece) returns (moves: seq<string>)
    requires Movable(piece)
    ensures moves == MovesOf(board.pieces, piece)
  {
    var pos := piece.position.value;
    match piece.kind
    case Pawn => moves := PawnMoves(board, piece);
    case Rook => moves := board.GetStraightMoves(pos, piece.color);
    case Knight => moves := KnightMoves(board, piece);
    case Bishop => moves := board.GetDiagonalMoves(pos, piece.color);
    case Queen =>
      var straightMoves := board.GetStraightMoves(pos, piece.color);
      var diagonalMoves := board.GetDiagonalMoves(pos, piece.color);
      moves := straightMoves + diagonalMoves;
    case King => moves := KingMoves(board, piece);
  }
}
