# Quantum chess: a verified model of the rules engine

The repository is a browser chess variant. A piece may be split across two
squares ("superposition"). After every turn, the opponent's attacks observe
the split pieces of the player who just moved, and each one collapses or is
captured. This project models the engine in Dafny, in four modules and the
files that hold them:

- **Coordinates** (`Coords`, coords.dfy): `cols`, `getCoords` and `getPosition` of
  board.js. The two conversions are proved to be inverse.
- **The board** (`Board`, board.js, board.dfy): the `pieces` map, `setupPieces`,
  `getPiece`, and the ray casting of `getStraightMoves`/`getDiagonalMoves`.
  - The ray loops are methods, each proved equal to a recursive function of the map.
  - The rays are proved sound and complete, and the straight targets are proved disjoint from the diagonal ones.
  - They stop at the first occupied square.
- **Pieces and moves** (`Pieces`, pieces.dfy; `Moves`, moves.dfy): the piece
  record of pieces.js and `getPossibleMoves` of the six classes.
  - The knight, king and pawn loops are methods, proved against their specification functions.
  - Those functions are then characterised exactly: knight jumps, Chebyshev distance 1, and the pawn's one step, double step and captures.
  - There is a concrete scenario: a lone king on e1.
- **The game** (`Game`, game.dfy): the `game` object of game.js is a class.
  - Its fields are `currentPlayer`, `selectedPiece`, `possibleMoves`, `quantumSelection` and `isQuantumMove`. It mutates `board.pieces` through the board object.
  - It models the click handler, selection, classical moves, the quantum split, the turn flip, and the collapse pass run after every turn.
  - The collapse rule is a separate function of the two slots and the attack set.
  - A loop invariant states what the pass may change. A key disappears only when its piece was captured by the collapse rule. A new or changed entry is always the collapse of a superposed piece.
  - A class invariant `Valid()` is kept by every click.
- **The classical board component** (`ChessBoardComponent`, chessboard.dfy): the
  grid of glyphs, `isValidMove`, `isPathClear` (a `while` loop) and
  `handleSquareClick` of src/components/ChessBoard.js.
  - The React state is a value passed in and returned.

Behaviour kept as the code has it:

- **Rays look only at `board.pieces`.** Squares covered by a superposed piece count as empty.
- **`isQuantumMove` is only ever set to false.** The quantum branch of the click
  handler is modelled but no click reaches it. `Game.GameState.HandleQuantumSelection`
  and `Game.GameState.ExecuteQuantumMove` are directly callable.
- **A split piece is stored under no key,** because `executeQuantumMove` deletes its
  key and never re-inserts it.
  - `ExecuteQuantumMove` therefore returns the split piece.
  - `Game.CollapseNoop` proves that the collapse pass changes nothing on every board
    a game reaches, because no superposed piece is ever stored.
  - The collapse rule is proved on its own (`Game.CollapseRule`,
    `Game.ResolvePiece`, `Game.SplitThenObserve`).
- **When both slots are attacked,** the capture uses the `'deleted'` marker. The model
  keeps only its net effect: the piece is removed.
- **When a piece collapses,** it is written under its safe square. The entry under its
  old key is the same object, so it shows the collapsed piece too. The model
  writes both keys.

## Model

| member | source | states |
|---|---|---|
| Coords.IndexOf | board.js:94-94 | `indexOf` for one character: -1 exactly when the character is absent, otherwise the first index holding it |
| Coords.ColsAt | board.js:11-11 | the file letters are consecutive: column c is the letter 'a' + c |
| Coords.IndexOfCols | board.js:94-94 | `cols.indexOf` of a file letter is its distance from 'a'; of any other character, -1 |
| Coords.GetCoords | board.js:93-97 | the column is the file letter's distance from 'a' (-1 for a non-letter); the row is the value of the digit |
| Coords.RankChar | board.js:103-103 | the digit printed for a row reads back as that row |
| Coords.GetPosition | board.js:99-104 | None exactly when the column is outside 0..7 or the row outside 1..8; otherwise a square id |
| Coords.PositionRoundTrip | board.js:93-104 | for an on-board (col, row), `getCoords(getPosition(col, row))` is (col, row) |
| Coords.CoordsRoundTrip | board.js:93-104 | for a square id s, `getPosition(getCoords(s))` is s |
| Coords.PositionIff | board.js:93-104 | `getPosition(col, row)` is t exactly when t is a square id whose coordinates are (col, row) |
| Pieces.Opponent | game.js:186-186 | the turn flip gives the other colour |
| Pieces.NewPiece | pieces.js:7-31 | a fresh piece has the given colour, kind and square, is not superposed, has no quantum positions, and has not moved |
| Board.UnitScale | board.js:118-118 | the step offset `i * dCol` for a unit direction |
| Board.RayLength | board.js:117-126 | a ray started at step i has at most 8 - i squares: at most 7 in all |
| Board.RayIndexed | board.js:117-126 | the j-th square of a ray started at step i is the on-board square i + j steps along the direction |
| Board.RaysSnoc | board.js:116-127 | the outer loop over the directions appends the last direction's ray |
| Board.RayPrefixEmpty | board.js:119-125 | every square of a ray except the last is empty: the ray ends at the first occupied square |
| Board.RayNotOwn | board.js:120-123 | no square of a ray holds a piece of the mover's colour |
| Board.RayComplete | board.js:117-126 | a square reached over empty squares is in the ray unless it holds a piece of the mover's colour |
| Board.RaysInclude | board.js:116-127 | each direction's squares are in the combined result |
| Board.RaysSource | board.js:116-127 | each square of the combined result comes from one direction's ray |
| Board.RayStep | board.js:117-126 | each square of a ray is some step k in 1..7 and does not hold the mover's colour |
| Board.RaySquareCoords | board.js:118-118 | a square k steps along a direction is a square id whose coordinates are (col + k·dCol, row + k·dRow) |
| Board.RaysSound | board.js:116-127 | every returned square is step k, with 1 ≤ k ≤ 7, of one of the directions and does not hold a piece of the mover's colour |
| Board.StraightDirection | board.js:114-114 | each rook direction moves along exactly one axis by one square |
| Board.DiagonalDirection | board.js:134-134 | each bishop direction moves by one square along both axes |
| Board.StraightRaysAligned | board.js:114-127 | straight rays leave the start square and keep its row or column |
| Board.DiagonalRaysOblique | board.js:134-147 | diagonal rays change both the row and the column |
| Board.StraightTargetsSound | board.js:111-129 | `getStraightMoves` returns on-board squares other than the start, without the mover's colour, on its row or column |
| Board.DiagonalTargetsSound | board.js:131-149 | `getDiagonalMoves` returns on-board squares without the mover's colour, sharing neither row nor column with the start |
| Board.StraightDiagonalDisjoint | board.js:111-149 | no square is both a straight and a diagonal target |
| Board.RaysComplete | board.js:116-127 | completeness for every direction: an empty run of squares and then a square not of the mover's colour puts that square in the result |
| Board.RankPiecesFacts | board.js:36-48 | each square of a rank of the setup is that rank's square id and holds a classical piece of that rank's colour standing on it |
| Board.InitialPiecesFacts | board.js:36-50 | every initial entry is a classical piece on its own key; white exactly on ranks 1-2, black exactly on ranks 7-8 |
| Board.InitialPiecesPlaced | board.js:36-50 | every initial key equals its piece's position |
| Board.RankPiecesAt | board.js:36-48 | file c of a rank holds the new piece of that file's kind |
| Board.RankPiecesOther | board.js:36-48 | a rank's part of the setup has no square of another rank |
| Board.InitialPiecesTable | board.js:36-48 | per file: rook/knight/bishop/queen/king order on ranks 1 and 8, pawns on ranks 2 and 7, with the right colour |
| Board.InitialPiecesCover | board.js:36-48 | every square of ranks 1, 2, 7 and 8 is occupied initially |
| Board.InitialPiecesDomain | board.js:36-48 | the occupied squares are exactly the 32 squares of ranks 1, 2, 7 and 8 |
| Board.BoardState.constructor | board.js:10-10 | the board starts with an empty map |
| Board.BoardState.SetupPieces | board.js:33-52 | the map becomes the initial placement |
| Board.BoardState.GetPiece | board.js:106-108 | None exactly for an empty square, otherwise the piece stored there |
| Board.BoardState.GetStraightMoves | board.js:111-129 | returns the straight rays of the start square |
| Board.BoardState.GetDiagonalMoves | board.js:131-149 | returns the diagonal rays of the start square |
| Board.BoardState.CastRays | board.js:113-128 | the outer loop concatenates the rays of the directions in order |
| Board.BoardState.CastRay | board.js:117-126 | the inner loop collects one direction's ray |
| Moves.StepTargetsSnoc | pieces.js:85-96 | one more offset appends that offset's square |
| Moves.StepTargetsSource | pieces.js:85-96 | each collected square is the square at one of the offsets and does not hold the mover's colour |
| Moves.StepTargetsInclude | pieces.js:85-96 | the on-board square at any offset is collected unless it holds the mover's colour |
| Moves.KnightOffsetIndex | pieces.js:80-83 | the offset table lists every L-shaped jump |
| Moves.KnightTargetsSound | pieces.js:85-96 | knight targets are on-board L-jumps not holding the mover's colour |
| Moves.KnightTargetsComplete | pieces.js:85-96 | every such square is a knight target |
| Moves.KnightTargetsExact | pieces.js:80-96 | knight targets are exactly the on-board (±1,±2)/(±2,±1) squares that are empty or hold the other colour |
| Moves.KingIndexNext | pieces.js:121-123 | the nested loops' visit count steps past (0, 0) |
| Moves.KingOffsetAt | pieces.js:121-123 | the loops visit the offsets in the table's order |
| Moves.KingTargetsSound | pieces.js:121-133 | king targets are on-board squares at Chebyshev distance 1 not holding the mover's colour |
| Moves.KingTargetsComplete | pieces.js:121-133 | every such square is a king target |
| Moves.KingTargetsExact | pieces.js:121-133 | king targets are exactly the on-board neighbours that are empty or hold the other colour |
| Moves.CapturesSnoc | pieces.js:56-64 | one more capture column appends that column's capture |
| Moves.CapturesPair | pieces.js:55-64 | the capture loop is the left capture followed by the right one |
| Moves.PawnTargetsExact | pieces.js:38-64 | pawn targets are exactly: the empty square ahead; the empty square two ahead of an unmoved pawn over an empty square; a diagonal forward square holding the other colour |
| Moves.PawnTargetsSound | pieces.js:38-64 | every pawn target is a square id one or two ranks ahead; a sideways one holds the other colour; a two-rank one needs an unmoved pawn |
| Moves.MovesOfSound | pieces.js:34-135 | every target of every kind is a square id other than the piece's own and never holds the mover's colour |
| Moves.SliderMovesOf | pieces.js:70-114 | rook = straight rays, bishop = diagonal rays, queen = both, which share no square (the queen's list is their concatenation) |
| Moves.LoneKingSteps | pieces.js:121-133 | around a lone king on e1 the loop finds d1, d2, e2, f1, f2 and no other square |
| Moves.LoneKingWest | pieces.js:121-133 | the first column of that loop yields d1, d2 |
| Moves.LoneKingTargets | pieces.js:121-133 | a lone king on e1 targets d1, d2, e2, f1, f2 in loop order |
| Moves.LoneKingScenario | pieces.js:117-135 | `getPossibleMoves` of a lone white king on e1 is [d1, d2, e2, f1, f2] |
| Moves.PushTarget | pieces.js:88-95 | the knight/king loop body appends the square when on board and not own colour |
| Moves.KnightMoves | pieces.js:77-98 | `Knight.getPossibleMoves` returns the knight targets |
| Moves.KingMoves | pieces.js:117-135 | `King.getPossibleMoves` returns the king targets |
| Moves.KingColumn | pieces.js:122-132 | one pass of the dRow loop appends that column's squares |
| Moves.KingStep | pieces.js:123-131 | one pass of the inner loop body skips (0, 0) and otherwise appends that offset's square |
| Moves.KingSnoc | pieces.js:122-131 | visiting offset (dCol, dRow) extends the visited targets by that square |
| Moves.PawnMoves | pieces.js:34-67 | `Pawn.getPossibleMoves` returns the pawn targets |
| Moves.PawnForward | pieces.js:40-52 | the forward part returns the one-step square when empty, then the two-step square when the pawn has not moved and both are empty |
| Moves.PawnCaptures | pieces.js:55-64 | the capture loop returns the capture squares of both columns, in order |
| Moves.PushCapture | pieces.js:57-63 | the capture loop body appends the square when it holds the other colour |
| Moves.GetPossibleMoves | pieces.js:34-135 | the class dispatch returns the targets of the piece's kind |
| Game.StoredClassical | game.js:171-176 | on a board where every piece stands on its key, no stored piece is superposed |
| Game.CollapseRule | game.js:209-232 | captured exactly when both slots are attacked; unchanged exactly when neither is; otherwise collapsed onto the unattacked slot |
| Game.ResolvePiece | game.js:209-250 | removed exactly when both slots are attacked; unchanged exactly when unobserved; otherwise classical on an unattacked slot with colour, kind and `hasMoved` kept |
| Game.AttackFromInsert | game.js:197-202 | scanning one more piece adds exactly its moves when it is of the colour and not superposed |
| Game.AttackSetSound | game.js:193-203 | every attacked square is a square id not held by the attacker's colour |
| Game.RemovedStep | game.js:213-225 | removing a piece the collapse rule captures keeps the pass invariant, and records the removed key as visited and captured |
| Game.RemovedSafe | game.js:216-216 | deleting a key whose piece stands on no square removes no safe square |
| Game.CollapsedStep | game.js:226-232 | writing the piece the collapse rule makes under its key and its safe square keeps the pass invariant |
| Game.CollapsedFrame | game.js:226-250 | that write changes only the piece's key and one of its slots, and stores a classical piece |
| Game.CollapsedTrace | game.js:226-250 | both entries that write touches hold the collapse of the visited piece, under its key or its safe square, and the safe square holds a collapse standing on it |
| Game.CollapsedChanged | game.js:226-250 | every entry changed after that write is a collapse stored under its piece's old key or under its safe square |
| Game.CollapsedSafe | game.js:244-250 | after that write every changed entry's safe square holds the collapse of a superposed piece of the mover, standing on that square |
| Game.SafeWrite | game.js:248-248 | storing a collapse on its own square, or under a key holding no piece on a square while its own square already holds a collapse, keeps that property |
| Game.ResolveStep | game.js:206-234 | one collapse step keeps the pass invariant: the map stays well formed; only split keys and slots change; superposed pieces are original; visited ones are unobserved; a key is gone only if it was visited and its piece captured; a new or changed entry is the collapse of a superposed piece of the mover |
| Game.CollapseNoop | game.js:206-234 | with no superposed piece stored, the collapse pass leaves the map unchanged |
| Game.CollapsePassOutcome | game.js:206-241 | after the pass a superposed piece of the mover has lost its key only when both slots are attacked; if its key still holds it, neither slot is attacked; otherwise its key holds a classical piece |
| Game.CollapsePassChanged | game.js:206-250 | every entry the pass adds or changes is classical, of the mover's colour, on an unattacked slot of a superposed piece of the mover, with that piece's kind and `hasMoved`; it is stored under that piece's old key or under the safe square, the safe square holds a classical piece standing on it that is the collapse of a superposed piece of the mover on that slot, and it is this very collapse when no other superposed piece of the mover has that slot |
| Game.ChangedSafe | game.js:244-250 | the same safe-square facts after a finished pass against any attack set |
| Game.ObservedSplitCollapses | game.js:226-250 | a split piece of the mover whose first slot alone is attacked, and whose key is no other split piece's slot, ends the pass collapsed onto its second slot under its key; that slot holds a classical piece standing on it, and holds this very piece when no other superposed piece of the mover shares the slot |
| Game.SoleSplitCollapses | game.js:226-250 | the only superposed piece of the mover, with its first slot alone attacked, ends the pass collapsed onto its second slot under both its key and that slot, whatever stood there before |
| Game.ObservedCollapse | game.js:226-250 | the same outcome for the pass against any attack set |
| Game.ResolveObserved | game.js:226-228 | the collapse rule sends a piece whose first slot alone is attacked to its second slot |
| Game.ResolveSlot | game.js:244-248 | a collapsed piece stands on one of its slots |
| Game.PassStart | game.js:206-206 | before any key is visited the pass invariant holds with every key pending |
| Game.LoneSplitKept | game.js:206-234 | a split white piece alone on the board keeps its key after white's pass, since nothing attacks it |
| Game.CollapsePassSettled | game.js:206-241 | after the pass every superposed piece left is an original one, and those of the mover are not attacked |
| Game.ClassicalMove | game.js:136-155 | the moved piece is classical on the target with colour and kind kept and `hasMoved` set for pawns; the origin is gone; other keys unchanged, except that one that also stored the piece shows the moved piece; the count drops by one exactly on a capture; placement kept |
| Game.AliasedMoveShown | game.js:144-153 | a piece stored under a1 and under its square c3, moved to d5, leaves c3 and shows the moved piece under a1 and d5 |
| Game.MoveCount | game.js:139-153 | a move removes one entry exactly when the target was occupied |
| Game.MovePlaced | game.js:141-153 | a classical move keeps every piece on its own key |
| Game.SuperposedMove | game.js:145-153 | moving a superposed piece puts it classical on the target, shows the moved piece under every key that stored it, changes no other key and leaves no entry in its superposed state |
| Game.RetargetAbsent | game.js:144-153 | a map that stores the piece under no key is not changed by the in-place update |
| Game.VacatedAbsent | game.js:171-171 | on a board where pieces stand at their keys, no key stores the piece once its square is deleted |
| Game.SplitOfSelected | game.js:129-130 | the two chosen squares are square ids, and the in-place split changes no stored entry of a reachable board |
| Game.MoveWellFormed | game.js:145-153 | a move of a classical or a superposed piece keeps the map well formed and puts a classical piece on the target |
| Game.SplitThenObserve | game.js:171-180 | a split gives a superposed piece on exactly the two targets (pawns marked moved); exactly one attacked slot collapses it onto the other |
| Game.GameState.constructor | game.js:5-14 | white to move, nothing selected, not in quantum mode, empty board |
| Game.GameState.Start | game.js:16-29 | the initial placement, white to move, selection cleared, class invariant established |
| Game.GameState.ClearSelection | game.js:92-99 | no selection, no moves, quantum mode off, empty quantum selection |
| Game.GameState.SelectPiece | game.js:66-90 | the piece is selected; its moves are its slots when superposed, its possible moves otherwise |
| Game.GameState.GetPieceAt | game.js:252-265 | the classical piece on the square; else a stored superposed piece with that slot; None only when there is none |
| Game.GameState.OpponentAttackSet | game.js:193-203 | the de-duplicated moves of every non-superposed piece of the colour |
| Game.GameState.AddAttacks | game.js:198-201 | one iteration of the attack loop |
| Game.GameState.CollapsePiece | game.js:244-250 | the collapsed piece is stored on its safe square, and the old key's entry shows it too |
| Game.GameState.CheckForQuantumCollapse | game.js:192-242 | the pass against the opponent's attack set of the current map ends with the pass invariant over every key: only captured pieces are removed, and only collapses are written, each under its piece's old key or its safe square, and each safe square holds a collapse standing on it |
| Game.GameState.CollapseAt | game.js:207-233 | one iteration applies the collapse rule to a superposed piece of the current player and leaves every other entry alone |
| Game.GameState.FinishTurn | game.js:183-189 | the collapse pass with the attack set taken before the flip (the same invariant as `checkForQuantumCollapse`), then the turn passes and the selection is cleared |
| Game.GameState.ExecuteMove | game.js:134-158 | the move on the map followed by the collapse pass, the turn flip and a cleared selection |
| Game.GameState.PlaceMoved | game.js:136-155 | capture on the target, vacate a classical piece's origin, show the moved piece under every other key that stored it, then store the moved piece on the target |
| Game.GameState.ExecuteQuantumMove | game.js:160-181 | both targets occupied: nothing changes but the selection is cleared; otherwise the origin is deleted and every other key that stored the piece shows the split piece, which is returned; then the collapse pass and the flip |
| Game.GameState.HandleQuantumSelection | game.js:115-132 | a square outside the moves or already chosen is ignored; the first is recorded; the second splits; the class invariant is kept |
| Game.GameState.HandleSquareClick | game.js:37-64 | a square among the selected piece's moves executes that move and flips the turn; otherwise board and turn stay and exactly a piece of the current player on the square is selected; invariant kept |
| Game.GameState.SelectOwn | game.js:56-62 | selects the piece on the square exactly when it is the current player's |
| ChessBoardComponent.GetPieceType | src/components/ChessBoard.js:29-39 | a kind exactly for the twelve glyphs |
| ChessBoardComponent.GlyphColours | src/components/ChessBoard.js:21-27 | no glyph is both white and black; the empty cell is neither |
| ChessBoardComponent.InitialBoardRows | src/components/ChessBoard.js:5-14 | the starting grid is 8×8 with rows 2-5 empty |
| ChessBoardComponent.InitialBoardShape | src/components/ChessBoard.js:5-14 | black on rows 0-1, white on rows 6-7, pawns in front, back ranks in setup order |
| ChessBoardComponent.BackRowsShape | src/components/ChessBoard.js:6-13 | the back-row glyphs show the back-rank kinds in order |
| ChessBoardComponent.InitialBoardMatchesSetup | src/components/ChessBoard.js:5-14 | grid row r is rank 8 - r: each glyph shows the colour and kind `setupPieces` puts on that square |
| ChessBoardComponent.PathSquareInGrid | src/components/ChessBoard.js:105-118 | the squares the walk visits before the target are on the grid and are neither end |
| ChessBoardComponent.PathEnd | src/components/ChessBoard.js:109-118 | the walk between aligned distinct squares reaches the target after exactly max(|dr|, |dc|) steps and not sooner |
| ChessBoardComponent.PathClearAdjacent | src/components/ChessBoard.js:105-121 | neighbouring squares have nothing between them |
| ChessBoardComponent.IsPathClear | src/components/ChessBoard.js:105-121 | the loop ends and returns true exactly when every square strictly between two aligned squares is empty |
| ChessBoardComponent.IsValidMove | src/components/ChessBoard.js:41-103 | returns exactly the validator's verdict |
| ChessBoardComponent.OwnColourInvalid | src/components/ChessBoard.js:46-49 | a move onto a piece of the mover's colour is never valid |
| ChessBoardComponent.SelfMoveInvalid | src/components/ChessBoard.js:46-49 | a move to the piece's own square is never valid |
| ChessBoardComponent.PawnRule | src/components/ChessBoard.js:57-74 | a valid pawn move is one row forward (-1 white, +1 black), or two from the start row over an empty square; straight moves need an empty target; sideways ones one diagonal step onto a piece of the other colour |
| ChessBoardComponent.PawnMovesAllowed | src/components/ChessBoard.js:57-74 | converse: one step forward onto an empty square, and one diagonal forward onto the other colour, are valid |
| ChessBoardComponent.KnightKingExact | src/components/ChessBoard.js:82-98 | a knight move is valid exactly for L-shapes and a king move exactly for \|dr\|, \|dc\| ≤ 1, unless landing on own colour; nothing in between matters |
| ChessBoardComponent.SliderRule | src/components/ChessBoard.js:76-95 | valid rook, bishop and queen moves are aligned (orthogonally and diagonally respectively), never land on own colour, and every square between is empty |
| ChessBoardComponent.HandleSquareClick | src/components/ChessBoard.js:123-163 | a valid move puts the piece on the target, empties the source, leaves every other cell, clears the selection and flips the turn; a wrong-turn selection is dropped; only current-turn pieces are ever selected; the same square deselects |

## Left out

- Rendering, status text and input plumbing are not modelled. This covers `drawBoard`, `renderPieces` and `_createPieceElement` in board.js, and `updateStatus`, `showMoveIndicators`, `addEventListeners` and the `classList` calls in game.js. It also covers `event.target.closest` (the click is a square argument) and the JSX of ChessBoard.js. None of these holds game state.
- The tunnel flags (game.js:13-14, 27-28) and the `id` getter (pieces.js:18-20) carry no behaviour and are not modelled.
- `type` (pieces.js:10) is not modelled as a string. Classes become the `Kind` datatype.
- `hasMoved` exists only on pawns in pieces.js. Here every kind carries it, false on non-pawns.
- `getCoords` on a string whose second character is not a digit gives NaN. `Movable` and `Parsable` exclude such positions; the board only ever holds square ids.
- Iteration order of `for…in` is not modelled. Every loop over `board.pieces` picks keys from a snapshot in an unspecified order, so the contracts hold for any order.
- The `'deleted'` marker, the `find` lookup and the cleanup loop (game.js:216-225, 236-241) are modelled by their net effect on the visited key: the captured piece under it is removed. The model does not capture what `find` does after that.
  - `find` runs after the visited key was deleted. It returns the first remaining stored superposed piece that has `pos1` among its slots.
  - When there is such a piece, the source marks it `'deleted'` and the cleanup loop removes it as well, so the source removes two pieces where the model removes one.
  - When there is none, `find` returns `undefined` and `piece_to_delete.color` throws.
  - Neither happens in play, because no superposed piece is ever stored (`Game.StoredClassical`).
- Object aliasing is modelled with values.
  - A collapsed piece is written under both its old key and its safe square.
  - A piece moved by `executeMove` or split by `executeQuantumMove` replaces every remaining entry equal to it (`Game.Retarget`), such as the old key a collapse left behind. Two distinct objects with equal fields cannot be told apart, so both would be replaced.
  - `executeMove` sets `hasMoved` after storing the piece; the model sets it before.
  - `executeQuantumMove` returns the split piece as a value, since it is stored under no key of its own.
- `delete board.pieces[null]` for a superposed piece's position is modelled as a no-op, since no key is the string "null".
- Game.GameState.CheckForQuantumCollapse: the pass's outcome is stated through the pass invariant, not as one function of the map, because the visiting order is unspecified. The invariant ties every removed key to a capture and every new or changed entry to a collapse stored under its piece's old key or its safe square, and it states that the safe square of every changed entry holds a collapse standing on that square. `Game.GameState.FinishTurn`, `Game.GameState.ExecuteMove` and `Game.GameState.ExecuteQuantumMove` state the pass the same way.
- Game.CollapsePassChanged: when two superposed pieces of the mover share the safe square, it says only that the square holds one of their collapses. Which one depends on the visiting order, which is not modelled.
- Game.ObservedSplitCollapses: the same. It pins the piece on the second slot only when no other superposed piece of the mover has that slot.
- Game.GameState.ExecuteQuantumMove: it requires both targets to be square ids, which `handleQuantumSelection` always passes (`Game.SplitOfSelected`). A key that still stores the piece shows the split piece, and the map must stay well formed for the collapse pass.
- Game.GameState.ExecuteMove: the collapse pass after the move is stated through the same invariant. On every reachable board `Game.CollapseNoop` pins it to "unchanged", and `Game.GameState.HandleSquareClick` then states the exact map.
- Game.GameState.GetPieceAt: it does not say which superposed piece is found when several cover the square. JavaScript's key order decides it.
- Game.GameState.HandleSquareClick: in quantum mode it states only the class invariant, and that quantum mode is not turned on. That branch's effect is the contract of `Game.GameState.HandleQuantumSelection`; no click reaches it, since `isQuantumMove` is never set to true.
- Board.InitialPiecesDomain: the size of the initial map (32) is stated through its set of keys, which is exactly the 32 squares of ranks 1, 2, 7 and 8. It is not stated as a map cardinality.
- ChessBoardComponent.IsPathClear: it requires the two squares to be aligned. Every call in `isValidMove` is behind an alignment test; on unaligned squares the source loop does not end at the target.
- ChessBoardComponent.GetPieceType: it returns `None` where the source returns `''`.
- Check, checkmate, castling, en passant, promotion and draws are implemented nowhere in the source and are not added.
