/** The classical two-player board of src/components/ChessBoard.js: an 8x8
    grid of piece glyphs (row 0 is black's back rank, row 7 white's), a
    move validator and the click handler that produces the next state. The
    React state hooks are modelled as a state value passed in and returned. */
module ChessBoardComponent {
  import opened Wrappers
  import opened Coords
  import opened Pieces
  import opened Board
  import opened Moves

  /** A cell holds one glyph or the empty string. */
  type Grid = seq<seq<string>>

  predicate IsGrid(g: Grid) {
    |g| == 8 && forall r :: 0 <= r < 8 ==> |g[r]| == 8
  }

  predicate InGrid(row: int, col: int) {
    0 <= row < 8 && 0 <= col < 8
  }

  /** `initialBoard`: row 0 is black's back rank, row 7 white's. */
  const InitialBoard: Grid := [
    BlackBackRow, BlackPawnRow, EmptyRow, EmptyRow, EmptyRow, EmptyRow, WhitePawnRow, WhiteBackRow
  ]

  const BlackBackRow: seq<string> := ["♜", "♞", "♝", "♛", "♚", "♝", "♞", "♜"]
  const BlackPawnRow: seq<string> := ["♟", "♟", "♟", "♟", "♟", "♟", "♟", "♟"]
  const EmptyRow: seq<string> := ["", "", "", "", "", "", "", ""]
  const WhitePawnRow: seq<string> := ["♙", "♙", "♙", "♙", "♙", "♙", "♙", "♙"]
  const WhiteBackRow: seq<string> := ["♖", "♘", "♗", "♕", "♔", "♗", "♘", "♖"]

  const WhiteGlyphs: seq<string> := ["♙", "♖", "♘", "♗", "♕", "♔"]
  const BlackGlyphs: seq<string> := ["♟", "♜", "♞", "♝", "♛", "♚"]

  predicate IsWhitePiece(piece: string) {
    piece in WhiteGlyphs
  }

  predicate IsBlackPiece(piece: string) {
    piece in BlackGlyphs
  }

  /** `getPieceType`: the kind a glyph shows, None (the source's '') for
      anything else. */
  function GetPieceType(piece: string): (r: Option<Kind>)
    ensures r.Some? <==> IsWhitePiece(piece) || IsBlackPiece(piece)
  {
    if piece == "♙" || piece == "♟" then Some(Pawn)
    else if piece == "♖" || piece == "♜" then Some(Rook)
    else if piece == "♘" || piece == "♞" then Some(Knight)
    else if piece == "♗" || piece == "♝" then Some(Bishop)
    else if piece == "♕" || piece == "♛" then Some(Queen)
    else if piece == "♔" || piece == "♚" then Some(King)
    else None
  }

  /** No glyph is both white and black, and an empty cell is neither. */
  lemma GlyphColours(piece: string)
    ensures !(IsWhitePiece(piece) && IsBlackPiece(piece))
    ensures piece == "" ==> !IsWhitePiece(piece) && !IsBlackPiece(piece)
  {
  }

  /** The starting grid is an 8x8 grid whose middle rows are empty. */
  lemma InitialBoardRows()
    ensures IsGrid(InitialBoard)
    ensures forall r, c :: 2 <= r < 6 && 0 <= c < 8 ==> InitialBoard[r][c] == ""
  {
  }

  /** Black stands on rows 0 and 1, white on rows 6 and 7, pawns in front
      and the back ranks in the order of `setupPieces`. */
  lemma InitialBoardShape(c: int)
    requires 0 <= c < 8
    ensures IsBlackPiece(InitialBoard[0][c]) && IsBlackPiece(InitialBoard[1][c])
    ensures IsWhitePiece(InitialBoard[6][c]) && IsWhitePiece(InitialBoard[7][c])
    ensures GetPieceType(InitialBoard[0][c]) == Some(BackRank[c]) && GetPieceType(InitialBoard[7][c]) == Some(BackRank[c])
    ensures GetPieceType(InitialBoard[1][c]) == Some(Pawn) && GetPieceType(InitialBoard[6][c]) == Some(Pawn)
  {
    BackRowsShape(c);
  }

  lemma BackRowsShape(c: int)
    requires 0 <= c < 8
    ensures IsBlackPiece(BlackBackRow[c]) && GetPieceType(BlackBackRow[c]) == Some(BackRank[c])
    ensures IsWhitePiece(WhiteBackRow[c]) && GetPieceType(WhiteBackRow[c]) == Some(BackRank[c])
  {
    if c == 0 || c == 7 {
    } else if c == 1 || c == 6 {
    } else if c == 2 || c == 5 {
    } else {
    }
  }

  /** A glyph shows the colour and kind of a piece. */
  predicate Shows(glyph: string, p: Piece) {
    GetPieceType(glyph) == Some(p.kind) && (IsWhitePiece(glyph) <==> p.color == White)
  }

  /** The two starting positions agree: grid row r is rank 8 - r, and each
      glyph shows the piece that `InitialPiecesTable` puts on that square. */
  lemma InitialBoardMatchesSetup(c: int)
    requires 0 <= c < 8
    ensures Shows(InitialBoard[0][c], NewPiece(Black, BackRank[c], [Cols[c], '8']))
    ensures Shows(InitialBoard[1][c], NewPiece(Black, Pawn, [Cols[c], '7']))
    ensures Shows(InitialBoard[6][c], NewPiece(White, Pawn, [Cols[c], '2']))
    ensures Shows(InitialBoard[7][c], NewPiece(White, BackRank[c], [Cols[c], '1']))
  {
    InitialBoardShape(c);
    GlyphColours(InitialBoard[0][c]);
    GlyphColours(InitialBoard[1][c]);
  }

  // ---------------------------------------------------------------------
  // Paths

  function Sign(d: int): int {
    if d > 0 then 1 else if d < 0 then -1 else 0
  }

  /** i steps of size `step` (-1, 0 or 1). */
  function Along(i: int, step: int): int {
    if step == 1 then i else if step == -1 then -i else 0
  }

  function Max(a: int, b: int): int {
    if a >= b then a else b
  }

  /** Same row, same column or same diagonal. */
  predicate Aligned(fromRow: int, fromCol: int, toRow: int, toCol: int) {
    toRow == fromRow || toCol == fromCol || Abs(toRow - fromRow) == Abs(toCol - fromCol)
  }

  /** The number of steps from one square to an aligned one. */
  function PathLength(fromRow: int, fromCol: int, toRow: int, toCol: int): int {
    Max(Abs(toRow - fromRow), Abs(toCol - fromCol))
  }

  /** The i-th square of the walk `isPathClear` makes. */
  function PathRow(fromRow: int, toRow: int, i: int): int {
    fromRow + Along(i, Sign(toRow - fromRow))
  }

  function PathCol(fromCol: int, toCol: int, i: int): int {
    fromCol + Along(i, Sign(toCol - fromCol))
  }

  /** The squares strictly between two aligned squares are on the grid and
      are neither end. */
  lemma PathSquareInGrid(fromRow: int, fromCol: int, toRow: int, toCol: int, i: int)
    requires InGrid(fromRow, fromCol) && InGrid(toRow, toCol) && Aligned(fromRow, fromCol, toRow, toCol)
    requires 1 <= i < PathLength(fromRow, fromCol, toRow, toCol)
    ensures InGrid(PathRow(fromRow, toRow, i), PathCol(fromCol, toCol, i))
    ensures (PathRow(fromRow, toRow, i), PathCol(fromCol, toCol, i)) != (fromRow, fromCol)
    ensures (PathRow(fromRow, toRow, i), PathCol(fromCol, toCol, i)) != (toRow, toCol)
  {
  }

  /** The walk reaches the target after exactly PathLength steps, and no
      sooner. */
  lemma PathEnd(fromRow: int, fromCol: int, toRow: int, toCol: int, i: int)
    requires Aligned(fromRow, fromCol, toRow, toCol) && 0 <= i
    requires PathLength(fromRow, fromCol, toRow, toCol) > 0
    ensures PathRow(fromRow, toRow, i) == toRow && PathCol(fromCol, toCol, i) == toCol
      <==> i == PathLength(fromRow, fromCol, toRow, toCol)
  {
  }

  /** The square i steps along the path is empty. */
  predicate PathSquareEmpty(g: Grid, fromRow: int, fromCol: int, toRow: int, toCol: int, i: int)
    requires IsGrid(g) && InGrid(fromRow, fromCol) && InGrid(toRow, toCol) && Aligned(fromRow, fromCol, toRow, toCol)
    requires 1 <= i < PathLength(fromRow, fromCol, toRow, toCol)
  {
    PathSquareInGrid(fromRow, fromCol, toRow, toCol, i);
    g[PathRow(fromRow, toRow, i)][PathCol(fromCol, toCol, i)] == ""
  }

  /** Every square strictly between the two squares is empty. */
  predicate PathClear(g: Grid, fromRow: int, fromCol: int, toRow: int, toCol: int)
    requires IsGrid(g) && InGrid(fromRow, fromCol) && InGrid(toRow, toCol) && Aligned(fromRow, fromCol, toRow, toCol)
  {
    forall i :: 1 <= i < PathLength(fromRow, fromCol, toRow, toCol) ==>
      PathSquareEmpty(g, fromRow, fromCol, toRow, toCol, i)
  }

  /** Neighbouring squares have nothing between them. */
  lemma PathClearAdjacent(g: Grid, fromRow: int, fromCol: int, toRow: int, toCol: int)
    requires IsGrid(g) && InGrid(fromRow, fromCol) && InGrid(toRow, toCol)
    requires Abs(toRow - fromRow) <= 1 && Abs(toCol - fromCol) <= 1
    ensures Aligned(fromRow, fromCol, toRow, toCol) && PathClear(g, fromRow, fromCol, toRow, toCol)
  {
  }

  /** `isPathClear`: walk from the source towards the target one step at a
      time and report false at the first occupied square. For aligned
      squares the walk ends on the target. */
  method IsPathClear(g: Grid, fromRow: int, fromCol: int, toRow: int, toCol: int) returns (clear: bool)
    requires IsGrid(g) && InGrid(fromRow, fromCol) && InGrid(toRow, toCol) && Aligned(fromRow, fromCol, toRow, toCol)
    ensures clear == PathClear(g, fromRow, fromCol, toRow, toCol)
  {
    var rowStep := if toRow > fromRow then 1 else if toRow < fromRow then -1 else 0;
    var colStep := if toCol > fromCol then 1 else if toCol < fromCol then -1 else 0;
    var currentRow := fromRow + rowStep;
    var currentCol := fromCol + colStep;
    ghost var n := PathLength(fromRow, fromCol, toRow, toCol);
    ghost var i := 1;
    while currentRow != toRow || currentCol != toCol
      invariant 1 <= i && (i <= n || (n == 0 && i == 1))
      invariant currentRow == PathRow(fromRow, toRow, i) && currentCol == PathCol(fromCol, toCol, i)
      invariant forall j :: 1 <= j < i && j < n ==> PathSquareEmpty(g, fromRow, fromCol, toRow, toCol, j)
      decreases n - i
    {
      if n > 0 {
        PathEnd(fromRow, fromCol, toRow, toCol, i);
      }
      PathSquareInGrid(fromRow, fromCol, toRow, toCol, i);
      if g[currentRow][currentCol] != "" {
        assert !PathSquareEmpty(g, fromRow, fromCol, toRow, toCol, i);
        return false;
      }
      currentRow := currentRow + rowStep;
      currentCol := currentCol + colStep;
      i := i + 1;
    }
    if n > 0 {
      PathEnd(fromRow, fromCol, toRow, toCol, i);
    }
    return true;
  }

  // ---------------------------------------------------------------------
  // The validator

  /** The first test of `isValidMove`: the target holds a piece of the
      mover's colour (a mover that is not white counts as black). */
  predicate OwnCapture(piece: string, targetPiece: string) {
    (IsWhitePiece(piece) && IsWhitePiece(targetPiece)) || (!IsWhitePiece(piece) && IsBlackPiece(targetPiece))
  }

  function PawnDirection(piece: string): int {
    if IsWhitePiece(piece) then -1 else 1
  }

  function PawnStartRow(piece: string): int {
    if IsWhitePiece(piece) then 6 else 1
  }

  /** What `isValidMove` decides, with `isPathClear` read as PathClear. */
  predicate ValidMove(g: Grid, fromRow: int, fromCol: int, toRow: int, toCol: int, piece: string)
    requires IsGrid(g) && InGrid(fromRow, fromCol) && InGrid(toRow, toCol)
  {
    var targetPiece := g[toRow][toCol];
    var rowDiff, colDiff := toRow - fromRow, toCol - fromCol;
    if OwnCapture(piece, targetPiece) then false
    else match GetPieceType(piece)
      case None => false
      case Some(Pawn) =>
        var direction := PawnDirection(piece);
        || (colDiff == 0 && rowDiff == direction && targetPiece == "")
        || (colDiff == 0 && fromRow == PawnStartRow(piece) && rowDiff == 2 * direction
            && targetPiece == "" && g[fromRow + direction][fromCol] == "")
        || (Abs(colDiff) == 1 && rowDiff == direction && targetPiece != "")
      case Some(Rook) =>
        (rowDiff == 0 || colDiff == 0) && PathClear(g, fromRow, fromCol, toRow, toCol)
      case Some(Knight) =>
        (Abs(rowDiff) == 2 && Abs(colDiff) == 1) || (Abs(rowDiff) == 1 && Abs(colDiff) == 2)
      case Some(Bishop) =>
        Abs(rowDiff) == Abs(colDiff) && PathClear(g, fromRow, fromCol, toRow, toCol)
      case Some(Queen) =>
        (rowDiff == 0 || colDiff == 0 || Abs(rowDiff) == Abs(colDiff)) && PathClear(g, fromRow, fromCol, toRow, toCol)
      case Some(King) =>
        Abs(rowDiff) <= 1 && Abs(colDiff) <= 1
  }

  /** `isValidMove`. */
  method IsValidMove(g: Grid, fromRow: int, fromCol: int, toRow: int, toCol: int, piece: string) returns (valid: bool)
    requires IsGrid(g) && InGrid(fromRow, fromCol) && InGrid(toRow, toCol)
    ensures valid == ValidMove(g, fromRow, fromCol, toRow, toCol, piece)
  {
    var pieceType := GetPieceType(piece);
    var targetPiece := g[toRow][toCol];
    var isWhite := IsWhitePiece(piece);
    if (isWhite && IsWhitePiece(targetPiece)) || (!isWhite && IsBlackPiece(targetPiece)) {
      return false;
    }
    var rowDiff := toRow - fromRow;
    var colDiff := toCol - fromCol;
    var absRowDiff := Abs(rowDiff);
    var absColDiff := Abs(colDiff);
    match pieceType
    case Some(Pawn) =>
      var direction := if isWhite then -1 else 1;
      var startRow := if isWhite then 6 else 1;
      if colDiff == 0 && rowDiff == direction && targetPiece == "" {
        return true;
      }
      if colDiff == 0 && fromRow == startRow && rowDiff == 2 * direction
        && targetPiece == "" && g[fromRow + direction][fromCol] == "" {
        return true;
      }
      if absColDiff == 1 && rowDiff == direction && targetPiece != "" {
        return true;
      }
      return false;
    case Some(Rook) =>
      if rowDiff == 0 || colDiff == 0 {
        valid := IsPathClear(g, fromRow, fromCol, toRow, toCol);
        return;
      }
      return false;
    case Some(Knight) =>
      return (absRowDiff == 2 && absColDiff == 1) || (absRowDiff == 1 && absColDiff == 2);
    case Some(Bishop) =>
      if absRowDiff == absColDiff {
        valid := IsPathClear(g, fromRow, fromCol, toRow, toCol);
        return;
      }
      return false;
    case Some(Queen) =>
      if rowDiff == 0 || colDiff == 0 || absRowDiff == absColDiff {
        valid := IsPathClear(g, fromRow, fromCol, toRow, toCol);
        return;
      }
      return false;
    case Some(King) =>
      return absRowDiff <= 1 && absColDiff <= 1;
    case None =>
      return false;
  }

  /** No move lands on a piece of the mover's own colour. */
  lemma OwnColourInvalid(g: Grid, fromRow: int, fromCol: int, toRow: int, toCol: int, piece: string)
    requires IsGrid(g) && InGrid(fromRow, fromCol) && InGrid(toRow, toCol)
    requires (IsWhitePiece(piece) && IsWhitePiece(g[toRow][toCol])) || (IsBlackPiece(piece) && IsBlackPiece(g[toRow][toCol]))
    ensures !ValidMove(g, fromRow, fromCol, toRow, toCol, piece)
  {
    GlyphColours(piece);
  }

  /** Hence a piece may never move onto its own square, whatever the cell
      holds. */
  lemma SelfMoveInvalid(g: Grid, row: int, col: int)
    requires IsGrid(g) && InGrid(row, col)
    ensures !ValidMove(g, row, col, row, col, g[row][col])
  {
    GlyphColours(g[row][col]);
  }

  /** The pawn rule: white moves towards row 0 from row 6, black towards row
      7 from row 1; straight moves need an empty target, the double step is
      taken from the start row over an empty square, and a sideways move is
      one diagonal step onto an occupied square. */
  lemma PawnRule(g: Grid, fromRow: int, fromCol: int, toRow: int, toCol: int, piece: string)
    requires IsGrid(g) && InGrid(fromRow, fromCol) && InGrid(toRow, toCol)
    requires GetPieceType(piece) == Some(Pawn)
    requires ValidMove(g, fromRow, fromCol, toRow, toCol, piece)
    ensures var d := if IsWhitePiece(piece) then -1 else 1;
      || toRow == fromRow + d
      || (toRow == fromRow + 2 * d && toCol == fromCol && fromRow == (if IsWhitePiece(piece) then 6 else 1)
          && g[fromRow + d][fromCol] == "")
    ensures toCol == fromCol ==> g[toRow][toCol] == ""
    ensures toCol != fromCol ==>
      && Abs(toCol - fromCol) == 1 && toRow - fromRow == (if IsWhitePiece(piece) then -1 else 1)
      && g[toRow][toCol] != "" && !OwnCapture(piece, g[toRow][toCol])
  {
  }

  /** And conversely the pawn may advance one square onto an empty square and
      take one square diagonally forward onto a piece of the other colour. */
  lemma PawnMovesAllowed(g: Grid, fromRow: int, fromCol: int, toRow: int, toCol: int, piece: string)
    requires IsGrid(g) && InGrid(fromRow, fromCol) && InGrid(toRow, toCol)
    requires GetPieceType(piece) == Some(Pawn)
    requires toRow - fromRow == (if IsWhitePiece(piece) then -1 else 1)
    ensures toCol == fromCol && g[toRow][toCol] == "" ==> ValidMove(g, fromRow, fromCol, toRow, toCol, piece)
    ensures Abs(toCol - fromCol) == 1 && g[toRow][toCol] != "" && !OwnCapture(piece, g[toRow][toCol])
      ==> ValidMove(g, fromRow, fromCol, toRow, toCol, piece)
  {
    GlyphColours(g[toRow][toCol]);
  }

  /** Knights take exactly the L-shaped jumps onto a square without a piece
      of their colour, whatever stands between; kings exactly the
      neighbouring squares. */
  lemma KnightKingExact(g: Grid, fromRow: int, fromCol: int, toRow: int, toCol: int, piece: string)
    requires IsGrid(g) && InGrid(fromRow, fromCol) && InGrid(toRow, toCol)
    ensures GetPieceType(piece) == Some(Knight) ==>
      (ValidMove(g, fromRow, fromCol, toRow, toCol, piece) <==>
        !OwnCapture(piece, g[toRow][toCol])
        && ((Abs(toRow - fromRow) == 2 && Abs(toCol - fromCol) == 1) || (Abs(toRow - fromRow) == 1 && Abs(toCol - fromCol) == 2)))
    ensures GetPieceType(piece) == Some(King) ==>
      (ValidMove(g, fromRow, fromCol, toRow, toCol, piece) <==>
        !OwnCapture(piece, g[toRow][toCol]) && Abs(toRow - fromRow) <= 1 && Abs(toCol - fromCol) <= 1)
  {
  }

  /** Rooks, bishops and queens move only along their lines, and only when
      every square strictly between is empty. */
  lemma SliderRule(g: Grid, fromRow: int, fromCol: int, toRow: int, toCol: int, piece: string)
    requires IsGrid(g) && InGrid(fromRow, fromCol) && InGrid(toRow, toCol)
    requires GetPieceType(piece) in {Some(Rook), Some(Bishop), Some(Queen)}
    requires ValidMove(g, fromRow, fromCol, toRow, toCol, piece)
    ensures Aligned(fromRow, fromCol, toRow, toCol)
    ensures forall i :: 1 <= i < PathLength(fromRow, fromCol, toRow, toCol) ==>
      PathSquareEmpty(g, fromRow, fromCol, toRow, toCol, i)
    ensures GetPieceType(piece) == Some(Rook) ==> toRow == fromRow || toCol == fromCol
    ensures GetPieceType(piece) == Some(Bishop) ==> Abs(toRow - fromRow) == Abs(toCol - fromCol)
    ensures !OwnCapture(piece, g[toRow][toCol])
  {
  }

  // ---------------------------------------------------------------------
  // The click handler

  /** The component's state: the grid, the selected square (row, col) and
      whose turn it is. */
  datatype UiState = UiState(board: Grid, selectedSquare: Option<(int, int)>, currentTurn: Color)

  predicate WellFormedUi(s: UiState) {
    IsGrid(s.board) && (s.selectedSquare.Some? ==> InGrid(s.selectedSquare.value.0, s.selectedSquare.value.1))
  }

  /** `useState(initialBoard)`, `useState(null)`, `useState('white')`. */
  const InitialUi: UiState := UiState(InitialBoard, None, White)

  /** The glyph belongs to the player whose turn it is. */
  predicate OwnTurn(turn: Color, piece: string) {
    (turn == White && IsWhitePiece(piece)) || (turn == Black && IsBlackPiece(piece))
  }

  /** A move from (fromRow, fromCol) to (toRow, toCol): the mover is on the
      target, the source is empty and every other cell is unchanged. */
  ghost predicate MovedOnGrid(g: Grid, h: Grid, fromRow: int, fromCol: int, toRow: int, toCol: int)
    requires IsGrid(g) && InGrid(fromRow, fromCol) && InGrid(toRow, toCol)
  {
    && IsGrid(h)
    && h[toRow][toCol] == g[fromRow][fromCol]
    && h[fromRow][fromCol] == ""
    && forall r, c :: InGrid(r, c) && (r != toRow || c != toCol) && (r != fromRow || c != fromCol) ==> h[r][c] == g[r][c]
  }

  /** `handleSquareClick(row, col)`. */
  method HandleSquareClick(s: UiState, row: int, col: int) returns (t: UiState)
    requires WellFormedUi(s) && InGrid(row, col)
    ensures WellFormedUi(t)
    ensures t.selectedSquare.Some? ==>
      OwnTurn(t.currentTurn, t.board[t.selectedSquare.value.0][t.selectedSquare.value.1])
    ensures s.selectedSquare.None? ==>
      && t.board == s.board && t.currentTurn == s.currentTurn
      && t.selectedSquare == (if OwnTurn(s.currentTurn, s.board[row][col]) then Some((row, col)) else None)
    ensures s.selectedSquare.Some? ==>
      var (sr, sc) := s.selectedSquare.value;
      var selectedPiece := s.board[sr][sc];
      && (!OwnTurn(s.currentTurn, selectedPiece) ==> t == s.(selectedSquare := None))
      && (OwnTurn(s.currentTurn, selectedPiece) && ValidMove(s.board, sr, sc, row, col, selectedPiece) ==>
            && MovedOnGrid(s.board, t.board, sr, sc, row, col)
            && t.selectedSquare.None? && t.currentTurn == Opponent(s.currentTurn))
      && (OwnTurn(s.currentTurn, selectedPiece) && !ValidMove(s.board, sr, sc, row, col, selectedPiece) ==>
            && t.board == s.board && t.currentTurn == s.currentTurn
            && t.selectedSquare == (if (row, col) != (sr, sc) && OwnTurn(s.currentTurn, s.board[row][col])
                                    then Some((row, col)) else None))
  {
    var piece := s.board[row][col];
    GlyphColours(piece);
    if s.selectedSquare.Some? {
      var (selectedRow, selectedCol) := s.selectedSquare.value;
      var selectedPiece := s.board[selectedRow][selectedCol];
      var isWhiteTurn := s.currentTurn == White;
      if (isWhiteTurn && !IsWhitePiece(selectedPiece)) || (!isWhiteTurn && !IsBlackPiece(selectedPiece)) {
        return s.(selectedSquare := None);
      }
      var valid := IsValidMove(s.board, selectedRow, selectedCol, row, col, selectedPiece);
      if valid {
        SelfMoveInvalid(s.board, row, col);
        var newBoard := s.board;
        newBoard := newBoard[row := newBoard[row][col := selectedPiece]];
        newBoard := newBoard[selectedRow := newBoard[selectedRow][selectedCol := ""]];
        t := UiState(newBoard, None, if s.currentTurn == White then Black else White);
      } else if row == selectedRow && col == selectedCol {
        t := s.(selectedSquare := None);
      } else if piece != "" && ((s.currentTurn == White && IsWhitePiece(piece)) || (s.currentTurn == Black && IsBlackPiece(piece))) {
        t := s.(selectedSquare := Some((row, col)));
      } else {
        t := s.(selectedSquare := None);
      }
    } else if piece != "" {
      if (s.currentTurn == White && IsWhitePiece(piece)) || (s.currentTurn == Black && IsBlackPiece(piece)) {
        t := s.(selectedSquare := Some((row, col)));
      } else {
        t := s;
      }
    } else {
      t := s;
    }
  }
}
