/** The board object of board.js: the map from square id to piece, the
    initial placement, and the ray casting used by the sliding pieces. */
module Board {
  import opened Wrappers
  import opened Coords
  import opened Pieces

  /** `board.pieces`: square id to piece object. */
  type PieceMap = map<string, Piece>

  /** The square holds a piece of `color` (a piece the mover may not take). */
  predicate OwnPiece(pieces: PieceMap, t: string, color: Color) {
    t in pieces && pieces[t].color == color
  }

  /** Every entry is a classical piece standing on the square it is keyed by. */
  predicate PlacedAtKeys(pieces: PieceMap) {
    forall k :: k in pieces ==> IsClassical(pieces[k]) && pieces[k].position == Some(k)
  }

  const StraightDirections: seq<(int, int)> := [(0, 1), (0, -1), (1, 0), (-1, 0)]
  const DiagonalDirections: seq<(int, int)> := [(1, 1), (1, -1), (-1, 1), (-1, -1)]

  /** A direction vector whose components are -1, 0 or 1. */
  predicate IsUnit(d: (int, int)) {
    -1 <= d.0 <= 1 && -1 <= d.1 <= 1
  }

  predicate AllUnit(directions: seq<(int, int)>) {
    forall m :: 0 <= m < |directions| ==> IsUnit(directions[m])
  }

  /** `i * dx` for a unit component `dx`, written without multiplication. */
  function Scale(i: int, dx: int): int {
    if dx > 0 then i else if dx < 0 then -i else 0
  }

  lemma UnitScale(i: int, dx: int)
    requires -1 <= dx <= 1
    ensures i * dx == Scale(i, dx)
  {
  }

  /** The square `i` steps from (col, row) in direction `d`
      (`getPosition(col + i * dCol, row + i * dRow)`), if on the board. */
  function RaySquare(col: int, row: int, d: (int, int), i: int): Option<string> {
    GetPosition(col + Scale(i, d.0), row + Scale(i, d.1))
  }

  /** What one direction's inner loop collects from step `i` on: steps go on
      while the square is on the board and empty; an occupied square ends the
      ray and is kept only when it holds a piece of the other colour. The
      loop runs for i = 1..7. */
  function RayFrom(pieces: PieceMap, col: int, row: int, d: (int, int), color: Color, i: int): seq<string>
    requires 1 <= i <= 8
    decreases 8 - i
  {
    if i == 8 then []
    else match RaySquare(col, row, d, i)
      case None => []
      case Some(t) =>
        if t in pieces then (if pieces[t].color != color then [t] else [])
        else [t] + RayFrom(pieces, col, row, d, color, i + 1)
  }

  /** The rays of all `directions`, in order. */
  function Rays(pieces: PieceMap, col: int, row: int, directions: seq<(int, int)>, color: Color): seq<string>
    decreases |directions|
  {
    if directions == [] then []
    else
      Rays(pieces, col, row, directions[..|directions| - 1], color)
      + RayFrom(pieces, col, row, directions[|directions| - 1], color, 1)
  }

  /** The result of `getStraightMoves(pos, color)`. */
  function StraightTargets(pieces: PieceMap, pos: string, color: Color): seq<string>
    requires Parsable(pos)
  {
    Rays(pieces, GetCoords(pos).0, GetCoords(pos).1, StraightDirections, color)
  }

  /** The result of `getDiagonalMoves(pos, color)`. */
  function DiagonalTargets(pieces: PieceMap, pos: string, color: Color): seq<string>
    requires Parsable(pos)
  {
    Rays(pieces, GetCoords(pos).0, GetCoords(pos).1, DiagonalDirections, color)
  }

  /** Steps i..k-1 of the ray are on the board and empty. */
  ghost predicate ClearSteps(pieces: PieceMap, col: int, row: int, d: (int, int), i: int, k: int) {
    forall j :: i <= j < k ==> RaySquare(col, row, d, j).Some? && RaySquare(col, row, d, j).value !in pieces
  }

  /** A ray from step i has at most 8 - i squares. */
  lemma {:induction false} RayLength(pieces: PieceMap, col: int, row: int, d: (int, int), color: Color, i: int)
    requires 1 <= i <= 8
    ensures |RayFrom(pieces, col, row, d, color, i)| <= 8 - i
    decreases 8 - i
  {
    if i < 8 && RaySquare(col, row, d, i).Some? && RaySquare(col, row, d, i).value !in pieces {
      RayLength(pieces, col, row, d, color, i + 1);
    }
  }

  /** The j-th square of a ray from step i is step i + j. */
  lemma {:induction false} RayIndexed(pieces: PieceMap, col: int, row: int, d: (int, int), color: Color, i: int, j: int)
    requires 1 <= i <= 8 && 0 <= j < |RayFrom(pieces, col, row, d, color, i)|
    ensures RaySquare(col, row, d, i + j) == Some(RayFrom(pieces, col, row, d, color, i)[j])
    decreases j
  {
    if j > 0 {
      var rest := RayFrom(pieces, col, row, d, color, i + 1);
      assert RayFrom(pieces, col, row, d, color, i) == [RaySquare(col, row, d, i).value] + rest;
      RayIndexed(pieces, col, row, d, color, i + 1, j - 1);
    }
  }

  /** Only the last square of a ray can be occupied: the ray stops at the
      first occupied square. */
  lemma {:induction false} RayPrefixEmpty(pieces: PieceMap, col: int, row: int, d: (int, int), color: Color, i: int)
    requires 1 <= i <= 8
    ensures forall j :: 0 <= j < |RayFrom(pieces, col, row, d, color, i)| - 1 ==>
      RayFrom(pieces, col, row, d, color, i)[j] !in pieces
    decreases 8 - i
  {
    if i < 8 && RaySquare(col, row, d, i).Some? && RaySquare(col, row, d, i).value !in pieces {
      RayPrefixEmpty(pieces, col, row, d, color, i + 1);
      var r := RayFrom(pieces, col, row, d, color, i);
      var rest := RayFrom(pieces, col, row, d, color, i + 1);
      assert r == [RaySquare(col, row, d, i).value] + rest;
      forall j | 0 < j < |r| - 1
        ensures r[j] !in pieces
      {
        assert r[j] == rest[j - 1];
      }
    }
  }

  /** No square of a ray holds a piece of the mover's colour. */
  lemma {:induction false} RayNotOwn(pieces: PieceMap, col: int, row: int, d: (int, int), color: Color, i: int)
    requires 1 <= i <= 8
    ensures forall t :: t in RayFrom(pieces, col, row, d, color, i) ==> !OwnPiece(pieces, t, color)
    decreases 8 - i
  {
    if i < 8 && RaySquare(col, row, d, i).Some? && RaySquare(col, row, d, i).value !in pieces {
      RayNotOwn(pieces, col, row, d, color, i + 1);
      assert RayFrom(pieces, col, row, d, color, i)
          == [RaySquare(col, row, d, i).value] + RayFrom(pieces, col, row, d, color, i + 1);
    }
  }

  /** Completeness of a ray: step k is returned when steps i..k-1 are empty
      and step k is on the board and not held by the mover's colour. */
  lemma {:induction false} RayComplete(pieces: PieceMap, col: int, row: int, d: (int, int), color: Color, i: int, k: int)
    requires 1 <= i <= k < 8
    requires ClearSteps(pieces, col, row, d, i, k)
    requires RaySquare(col, row, d, k).Some? && !OwnPiece(pieces, RaySquare(col, row, d, k).value, color)
    ensures RaySquare(col, row, d, k).value in RayFrom(pieces, col, row, d, color, i)
    decreases k - i
  {
    if i < k {
      assert RaySquare(col, row, d, i).Some? && RaySquare(col, row, d, i).value !in pieces;
      RayComplete(pieces, col, row, d, color, i + 1, k);
    }
  }

  /** Regrouping a concatenation: the ray loop's pushes against RayFrom's recursion. */
  lemma AppendAssoc(a: seq<string>, b: seq<string>, c: seq<string>)
    ensures a + (b + c) == (a + b) + c
  {
  }

  /** Over an empty on-board square the ray goes on to the next step. */
  lemma RayFromEmptyStep(pieces: PieceMap, col: int, row: int, d: (int, int), color: Color, i: int)
    requires 1 <= i < 8 && RaySquare(col, row, d, i).Some? && RaySquare(col, row, d, i).value !in pieces
    ensures RayFrom(pieces, col, row, d, color, i)
         == [RaySquare(col, row, d, i).value] + RayFrom(pieces, col, row, d, color, i + 1)
  {
  }

  /** The rays of a non-empty list of directions: those of all but the last,
      then the last one's. */
  lemma RaysSnoc(pieces: PieceMap, col: int, row: int, directions: seq<(int, int)>, color: Color)
    requires directions != []
    ensures Rays(pieces, col, row, directions, color)
         == Rays(pieces, col, row, directions[..|directions| - 1], color)
            + RayFrom(pieces, col, row, directions[|directions| - 1], color, 1)
  {
  }

  /** A ray's squares are among the rays of all directions. */
  lemma {:induction false} RaysInclude(pieces: PieceMap, col: int, row: int, directions: seq<(int, int)>, color: Color, m: int, t: string)
    requires 0 <= m < |directions| && t in RayFrom(pieces, col, row, directions[m], color, 1)
    ensures t in Rays(pieces, col, row, directions, color)
    decreases |directions|
  {
    var init := directions[..|directions| - 1];
    var last := RayFrom(pieces, col, row, directions[|directions| - 1], color, 1);
    RaysSnoc(pieces, col, row, directions, color);
    if m < |init| {
      assert init[m] == directions[m];
      RaysInclude(pieces, col, row, init, color, m, t);
    } else {
      assert t in last;
    }
  }

  /** Every square of the rays of all directions comes from the ray of one
      direction `m`. */
  lemma {:induction false} RaysSource(pieces: PieceMap, col: int, row: int, directions: seq<(int, int)>, color: Color, t: string)
    returns (m: int)
    requires t in Rays(pieces, col, row, directions, color)
    ensures 0 <= m < |directions| && t in RayFrom(pieces, col, row, directions[m], color, 1)
    decreases |directions|
  {
    var init := directions[..|directions| - 1];
    if t in Rays(pieces, col, row, init, color) {
      m := RaysSource(pieces, col, row, init, color, t);
      assert init[m] == directions[m];
    } else {
      m := |directions| - 1;
    }
  }

  /** A ray's element comes from some step k of it. */
  lemma RayStep(pieces: PieceMap, col: int, row: int, d: (int, int), color: Color, t: string)
    returns (k: int)
    requires t in RayFrom(pieces, col, row, d, color, 1)
    ensures 1 <= k < 8 && RaySquare(col, row, d, k) == Some(t) && !OwnPiece(pieces, t, color)
  {
    RayLength(pieces, col, row, d, color, 1);
    RayNotOwn(pieces, col, row, d, color, 1);
    var r := RayFrom(pieces, col, row, d, color, 1);
    var j :| 0 <= j < |r| && r[j] == t;
    RayIndexed(pieces, col, row, d, color, 1, j);
    k := 1 + j;
  }

  /** The coordinates of a ray's square: step k in direction d from (col, row). */
  lemma RaySquareCoords(col: int, row: int, d: (int, int), k: int, t: string)
    requires RaySquare(col, row, d, k) == Some(t)
    ensures IsSquareId(t) && GetCoords(t) == (col + Scale(k, d.0), row + Scale(k, d.1))
  {
    var c, r := col + Scale(k, d.0), row + Scale(k, d.1);
    assert GetPosition(c, r) == Some(t);
    PositionIff(c, r, t);
  }

  /** Every square any ray returns is step k of one of the directions and
      does not hold a piece of the mover's colour. */
  lemma RaysSound(pieces: PieceMap, col: int, row: int, directions: seq<(int, int)>, color: Color, t: string)
    returns (m: int, k: int)
    requires t in Rays(pieces, col, row, directions, color)
    ensures 0 <= m < |directions| && 1 <= k < 8
    ensures RaySquare(col, row, directions[m], k) == Some(t) && !OwnPiece(pieces, t, color)
  {
    m := RaysSource(pieces, col, row, directions, color, t);
    k := RayStep(pieces, col, row, directions[m], color, t);
  }

  /** A straight direction moves along exactly one axis by one square. */
  lemma StraightDirection(m: int)
    requires 0 <= m < |StraightDirections|
    ensures IsUnit(StraightDirections[m])
    ensures (StraightDirections[m].0 == 0) != (StraightDirections[m].1 == 0)
  {
  }

  /** A diagonal direction moves along both axes by one square. */
  lemma DiagonalDirection(m: int)
    requires 0 <= m < |DiagonalDirections|
    ensures IsUnit(DiagonalDirections[m])
    ensures DiagonalDirections[m].0 != 0 && DiagonalDirections[m].1 != 0
  {
  }

  /** The straight rays from (col, row) stay in its row or column. */
  lemma StraightRaysAligned(pieces: PieceMap, col: int, row: int, color: Color, t: string)
    requires t in Rays(pieces, col, row, StraightDirections, color)
    ensures IsSquareId(t) && !OwnPiece(pieces, t, color) && GetCoords(t) != (col, row)
    ensures GetCoords(t).0 == col || GetCoords(t).1 == row
  {
    var m, k := RaysSound(pieces, col, row, StraightDirections, color, t);
    var d := StraightDirections[m];
    StraightDirection(m);
    RaySquareCoords(col, row, d, k, t);
  }

  /** The diagonal rays from (col, row) leave both its row and its column. */
  lemma DiagonalRaysOblique(pieces: PieceMap, col: int, row: int, color: Color, t: string)
    requires t in Rays(pieces, col, row, DiagonalDirections, color)
    ensures IsSquareId(t) && !OwnPiece(pieces, t, color)
    ensures GetCoords(t).0 != col && GetCoords(t).1 != row
  {
    var m, k := RaysSound(pieces, col, row, DiagonalDirections, color, t);
    var d := DiagonalDirections[m];
    DiagonalDirection(m);
    RaySquareCoords(col, row, d, k, t);
  }

  /** Every square `getStraightMoves` returns is on the board, is not held by
      the mover's colour, is not the start square, and shares the start
      square's row or column. */
  lemma StraightTargetsSound(pieces: PieceMap, pos: string, color: Color, t: string)
    requires Parsable(pos) && t in StraightTargets(pieces, pos, color)
    ensures IsSquareId(t) && !OwnPiece(pieces, t, color) && GetCoords(t) != GetCoords(pos)
    ensures GetCoords(t).0 == GetCoords(pos).0 || GetCoords(t).1 == GetCoords(pos).1
  {
    StraightRaysAligned(pieces, GetCoords(pos).0, GetCoords(pos).1, color, t);
  }

  /** Every square `getDiagonalMoves` returns is on the board, is not held by
      the mover's colour, and shares neither row nor column with the start. */
  lemma DiagonalTargetsSound(pieces: PieceMap, pos: string, color: Color, t: string)
    requires Parsable(pos) && t in DiagonalTargets(pieces, pos, color)
    ensures IsSquareId(t) && !OwnPiece(pieces, t, color)
    ensures GetCoords(t).0 != GetCoords(pos).0 && GetCoords(t).1 != GetCoords(pos).1
  {
    DiagonalRaysOblique(pieces, GetCoords(pos).0, GetCoords(pos).1, color, t);
  }

  /** No square is both a straight and a diagonal target. */
  lemma StraightDiagonalDisjoint(pieces: PieceMap, pos: string, color: Color, t: string)
    requires Parsable(pos)
    ensures !(t in StraightTargets(pieces, pos, color) && t in DiagonalTargets(pieces, pos, color))
  {
    if t in StraightTargets(pieces, pos, color) && t in DiagonalTargets(pieces, pos, color) {
      StraightTargetsSound(pieces, pos, color, t);
      DiagonalTargetsSound(pieces, pos, color, t);
    }
  }

  /** Completeness of `getStraightMoves`/`getDiagonalMoves` along one
      direction: an on-board square reached over empty squares is returned
      unless it holds a piece of the mover's colour. */
  lemma RaysComplete(pieces: PieceMap, col: int, row: int, directions: seq<(int, int)>, color: Color, m: int, k: int)
    requires 0 <= m < |directions| && 1 <= k < 8
    requires ClearSteps(pieces, col, row, directions[m], 1, k)
    requires RaySquare(col, row, directions[m], k).Some?
    requires !OwnPiece(pieces, RaySquare(col, row, directions[m], k).value, color)
    ensures RaySquare(col, row, directions[m], k).value in Rays(pieces, col, row, directions, color)
  {
    RayComplete(pieces, col, row, directions[m], color, 1, k);
    RaysInclude(pieces, col, row, directions, color, m, RaySquare(col, row, directions[m], k).value);
  }

  /** The pieces `setupPieces` puts on the first and last rank, file by file. */
  const BackRank: seq<Kind> := [Rook, Knight, Bishop, Queen, King, Bishop, Knight, Rook]

  /** One rank of the initial placement: the piece of kind `kinds[c]` on file
      c of `rank`, for every file, each created at its own square. */
  function RankPieces(color: Color, rank: char, kinds: seq<Kind>): PieceMap
    requires |kinds| == 8
  {
    map c | 0 <= c < 8 :: [Cols[c], rank] := NewPiece(color, kinds[c], [Cols[c], rank])
  }

  /** The placement `setupPieces` writes, rank by rank: white's back rank on
      rank 1 and pawns on rank 2, black's pawns on rank 7 and back rank on 8. */
  function InitialPieces(): PieceMap {
    RankPieces(White, '1', BackRank) + RankPieces(White, '2', seq(8, _ => Pawn))
    + RankPieces(Black, '7', seq(8, _ => Pawn)) + RankPieces(Black, '8', BackRank)
  }

  /** A square of a rank map is that rank's square of some file, holding a
      classical piece placed on it. */
  lemma RankPiecesFacts(color: Color, rank: char, kinds: seq<Kind>, k: string)
    requires |kinds| == 8 && '1' <= rank <= '8' && k in RankPieces(color, rank, kinds)
    ensures IsSquareId(k) && k[1] == rank
    ensures RankPieces(color, rank, kinds)[k].color == color
    ensures IsClassical(RankPieces(color, rank, kinds)[k]) && RankPieces(color, rank, kinds)[k].position == Some(k)
  {
    var c :| 0 <= c < 8 && k == [Cols[c], rank];
    ColsAt(c);
  }

  /** The initial placement: every entry is a classical, unmoved piece keyed
      by its own square; white's stand on ranks 1-2 and black's on 7-8. */
  lemma InitialPiecesFacts(k: string)
    requires k in InitialPieces()
    ensures IsSquareId(k)
    ensures IsClassical(InitialPieces()[k]) && InitialPieces()[k].position == Some(k)
    ensures InitialPieces()[k].color == White <==> k[1] == '1' || k[1] == '2'
    ensures InitialPieces()[k].color == Black <==> k[1] == '7' || k[1] == '8'
  {
    var pawns := seq(8, _ => Pawn);
    if k in RankPieces(Black, '8', BackRank) {
      RankPiecesFacts(Black, '8', BackRank, k);
    } else if k in RankPieces(Black, '7', pawns) {
      RankPiecesFacts(Black, '7', pawns, k);
    } else if k in RankPieces(White, '2', pawns) {
      RankPiecesFacts(White, '2', pawns, k);
    } else {
      RankPiecesFacts(White, '1', BackRank, k);
    }
  }

  lemma InitialPiecesPlaced()
    ensures PlacedAtKeys(InitialPieces())
  {
    forall k | k in InitialPieces()
      ensures IsClassical(InitialPieces()[k]) && InitialPieces()[k].position == Some(k)
    {
      InitialPiecesFacts(k);
    }
  }

  /** File c of `rank` is in that rank's map, with the piece of kind `kinds[c]`. */
  lemma RankPiecesAt(color: Color, rank: char, kinds: seq<Kind>, c: int)
    requires |kinds| == 8 && 0 <= c < 8
    ensures [Cols[c], rank] in RankPieces(color, rank, kinds)
    ensures RankPieces(color, rank, kinds)[[Cols[c], rank]] == NewPiece(color, kinds[c], [Cols[c], rank])
  {
  }

  /** A square of another rank is not in a rank's map. */
  lemma RankPiecesOther(color: Color, rank: char, kinds: seq<Kind>, k: string)
    requires |kinds| == 8 && |k| == 2 && k[1] != rank
    ensures k !in RankPieces(color, rank, kinds)
  {
  }

  /** The table `setupPieces` writes, entry by entry: on file c, white's
      back-rank piece on rank 1, a white pawn on rank 2, a black pawn on
      rank 7 and black's back-rank piece on rank 8. */
  lemma InitialPiecesTable(c: int)
    requires 0 <= c < 8
    ensures var k := [Cols[c], '1']; k in InitialPieces() && InitialPieces()[k] == NewPiece(White, BackRank[c], k)
    ensures var k := [Cols[c], '2']; k in InitialPieces() && InitialPieces()[k] == NewPiece(White, Pawn, k)
    ensures var k := [Cols[c], '7']; k in InitialPieces() && InitialPieces()[k] == NewPiece(Black, Pawn, k)
    ensures var k := [Cols[c], '8']; k in InitialPieces() && InitialPieces()[k] == NewPiece(Black, BackRank[c], k)
  {
    var pawns := seq(8, _ => Pawn);
    var w1, w2, b7, b8 := RankPieces(White, '1', BackRank), RankPieces(White, '2', pawns),
      RankPieces(Black, '7', pawns), RankPieces(Black, '8', BackRank);
    RankPiecesAt(White, '1', BackRank, c);
    RankPiecesAt(White, '2', pawns, c);
    RankPiecesAt(Black, '7', pawns, c);
    RankPiecesAt(Black, '8', BackRank, c);
    RankPiecesOther(White, '2', pawns, [Cols[c], '1']);
    RankPiecesOther(Black, '7', pawns, [Cols[c], '1']);
    RankPiecesOther(Black, '8', BackRank, [Cols[c], '1']);
    RankPiecesOther(Black, '7', pawns, [Cols[c], '2']);
    RankPiecesOther(Black, '8', BackRank, [Cols[c], '2']);
    RankPiecesOther(Black, '8', BackRank, [Cols[c], '7']);
  }

  /** Every square of ranks 1, 2, 7 and 8 is occupied initially. */
  lemma InitialPiecesCover(k: string)
    requires IsSquareId(k) && (k[1] == '1' || k[1] == '2' || k[1] == '7' || k[1] == '8')
    ensures k in InitialPieces()
  {
    var c := k[0] as int - 'a' as int;
    ColsAt(c);
    assert k == [Cols[c], k[1]];
    InitialPiecesTable(c);
  }

  /** The occupied squares of the initial placement are exactly the squares
      of ranks 1, 2, 7 and 8. */
  lemma InitialPiecesDomain(k: string)
    ensures k in InitialPieces() <==> IsSquareId(k) && (k[1] == '1' || k[1] == '2' || k[1] == '7' || k[1] == '8')
  {
    if k in InitialPieces() {
      InitialPiecesFacts(k);
    } else if IsSquareId(k) && (k[1] == '1' || k[1] == '2' || k[1] == '7' || k[1] == '8') {
      InitialPiecesCover(k);
    }
  }

  /** The `board` object: its `pieces` field. */
  class BoardState {
    var pieces: PieceMap

    /** The object literal: `pieces: {}`. */
    constructor ()
      ensures pieces == map[]
    {
      pieces := map[];
    }

    /** `setupPieces`: replace the map by the initial placement. */
    method SetupPieces()
      modifies this
      ensures pieces == InitialPieces()
    {
      pieces := InitialPieces();
    }

    /** `getPiece`: the piece on a square, or None for an empty square. */
    function GetPiece(pos: string): (r: Option<Piece>)
      reads this
      ensures r.Some? <==> pos in pieces
      ensures r.Some? ==> r.value == pieces[pos]
    {
      if pos in pieces then Some(pieces[pos]) else None
    }

    /** `getStraightMoves`. */
    method GetStraightMoves(pos: string, color: Color) returns (moves: seq<string>)
      requires Parsable(pos)
      ensures moves == StraightTargets(pieces, pos, color)
    {
      moves := CastRays(pos, color, StraightDirections);
    }

    /** `getDiagonalMoves`. */
    method GetDiagonalMoves(pos: string, color: Color) returns (moves: seq<string>)
      requires Parsable(pos)
      ensures moves == DiagonalTargets(pieces, pos, color)
    {
      moves := CastRays(pos, color, DiagonalDirections);
    }

    /** The loop `getStraightMoves` and `getDiagonalMoves` share: the rays of
        every direction, one after another. */
    method CastRays(pos: string, color: Color, directions: seq<(int, int)>) returns (moves: seq<string>)
      requires Parsable(pos) && AllUnit(directions)
      ensures moves == Rays(pieces, GetCoords(pos).0, GetCoords(pos).1, directions, color)
    {
      moves := [];
      var (col, row) := GetCoords(pos);
      var di := 0;
      while di < |directions|
        invariant 0 <= di <= |directions|
        invariant moves == Rays(pieces, col, row, directions[..di], color)
      {
        var ray := CastRay(col, row, directions[di], color);
        moves := moves + ray;
        assert directions[..di + 1][..di] == directions[..di];
        di := di + 1;
      }
      assert directions[..|directions|] == directions;
    }

    /** The inner loop for one direction: step i = 1..7 until off the board
        or onto a piece, keeping that piece's square if it is the opponent's. */
    method CastRay(col: int, row: int, d: (int, int), color: Color) returns (ray: seq<string>)
      requires IsUnit(d)
      ensures ray == RayFrom(pieces, col, row, d, color, 1)
    {
      var (dCol, dRow) := d;
      ray := [];
      var i := 1;
      while i < 8
        invariant 1 <= i <= 8
        invariant RayFrom(pieces, col, row, d, color, 1) == ray + RayFrom(pieces, col, row, d, color, i)
      {
        UnitScale(i, dCol);
        UnitScale(i, dRow);
        var targetPos := GetPosition(col + i * dCol, row + i * dRow);
        assert targetPos == RaySquare(col, row, d, i);
        if targetPos.None? {
          break;
        }
        var targetPiece := GetPiece(targetPos.value);
        if targetPiece.Some? {
          if targetPiece.value.color != color {
            ray := ray + [targetPos.value];
          }
          break;
        }
        RayFromEmptyStep(pieces, col, row, d, color, i);
        AppendAssoc(ray, [targetPos.value], RayFrom(pieces, col, row, d, color, i + 1));
        ray := ray + [targetPos.value];
        i := i + 1;
      }
    }
  }
}
