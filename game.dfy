/** The turn and game state machine of game.js: the `game` object's fields,
    the click handler, classical and quantum moves, the turn flip and the
    collapse rule applied after every turn. The `board.pieces` map is the one
    piece of shared state; the game mutates it through `board`. */
module Game {
  import opened Wrappers
  import opened Coords
  import opened Pieces
  import opened Board
  import opened Moves

  /** What every operation of the game keeps of the map: its keys are square
      ids and each entry is a classical or a superposed piece. A classical
      entry need not stand on its own key: after a collapse the piece's old
      key still refers to it (see `GameState.CollapsePiece`). */
  predicate WellFormedBoard(pieces: PieceMap) {
    forall k :: k in pieces ==> IsSquareId(k) && WellFormedPiece(pieces[k])
  }

  lemma PlacedWellFormed(pieces: PieceMap)
    requires PlacedAtKeys(pieces)
    ensures WellFormedBoard(pieces)
  {
  }

  /** On a placed board no stored piece is superposed. */
  lemma StoredClassical(pieces: PieceMap, p: Piece)
    requires PlacedAtKeys(pieces)
    ensures p in pieces.Values ==> !p.inSuperposition
  {
  }

  // ---------------------------------------------------------------------
  // The collapse rule

  /** The three outcomes of observing a superposed piece. */
  datatype Outcome = Captured | CollapseTo(safe: string) | StaySuperposed

  /** The case split of `checkForQuantumCollapse` for slots (p1, p2):
      observed at both slots the piece is captured, observed at one it
      collapses onto the other, observed at neither it stays superposed. */
  function CollapseRule(p1: string, p2: string, attack: set<string>): (o: Outcome)
    ensures o == Captured <==> p1 in attack && p2 in attack
    ensures o == StaySuperposed <==> p1 !in attack && p2 !in attack
    ensures o.CollapseTo? ==> (o.safe == p1 || o.safe == p2) && o.safe !in attack
    ensures o.CollapseTo? ==> p1 in attack || p2 in attack
  {
    if p1 in attack && p2 in attack then Captured
    else if p1 in attack then CollapseTo(p2)
    else if p2 in attack then CollapseTo(p1)
    else StaySuperposed
  }

  /** `collapsePiece(piece, safePos, _)`: the piece becomes classical on
      `safePos`; `hasMoved` is left as it was. */
  function Collapsed(piece: Piece, safePos: string): Piece {
    piece.(inSuperposition := false, quantumPositions := [], position := Some(safePos))
  }

  /** No slot of the piece is attacked. */
  predicate Unobserved(piece: Piece, attack: set<string>) {
    forall q :: q in piece.quantumPositions ==> q !in attack
  }

  /** The collapse rule applied to one superposed piece: None when it is
      captured, the collapsed piece, or the piece itself when unobserved. */
  function ResolvePiece(piece: Piece, attack: set<string>): (r: Option<Piece>)
    requires IsSuperposed(piece)
    ensures r.None? <==> piece.quantumPositions[0] in attack && piece.quantumPositions[1] in attack
    ensures r == Some(piece) <==> Unobserved(piece, attack)
    ensures r.Some? && r.value != piece ==>
      && IsClassical(r.value)
      && r.value.position.value in piece.quantumPositions
      && r.value.position.value !in attack
      && r.value.color == piece.color && r.value.kind == piece.kind
      && r.value.hasMoved == piece.hasMoved
  {
    assert piece.quantumPositions == [piece.quantumPositions[0], piece.quantumPositions[1]];
    match CollapseRule(piece.quantumPositions[0], piece.quantumPositions[1], attack)
    case Captured => None
    case CollapseTo(safe) => Some(Collapsed(piece, safe))
    case StaySuperposed => Some(piece)
  }

  /** A superposed piece of the mover. */
  predicate MoverSuperposed(piece: Piece, mover: Color) {
    piece.color == mover && piece.inSuperposition
  }

  /** The body of the collapse loop for the entry under `key`, as its net
      effect on the map: a captured piece is removed (the 'deleted' marker
      and the cleanup loop only serve that end); a collapsed piece is written
      to its safe square and, because the map entry under `key` is the same
      object, that entry shows the collapsed piece too. */
  function ResolveSuperposed(pieces: PieceMap, key: string, attack: set<string>): PieceMap
    requires key in pieces && IsSuperposed(pieces[key])
  {
    match ResolvePiece(pieces[key], attack)
    case None => pieces - {key}
    case Some(c) =>
      if c == pieces[key] then pieces
      else pieces[key := c][c.position.value := c]
  }

  /** One step of the loop: only superposed pieces of the mover are touched. */
  function PassStep(pieces: PieceMap, key: string, mover: Color, attack: set<string>): PieceMap
    requires WellFormedBoard(pieces)
  {
    if key in pieces && MoverSuperposed(pieces[key], mover) then ResolveSuperposed(pieces, key, attack)
    else pieces
  }

  // ---------------------------------------------------------------------
  // The attack set

  /** A piece whose moves count as attacks: of `color`, not superposed. */
  predicate Attacker(piece: Piece, color: Color) {
    piece.color == color && !piece.inSuperposition && Movable(piece)
  }

  /** The squares the attackers under `keys` can move to. */
  function AttackFrom(pieces: PieceMap, color: Color, keys: set<string>): set<string> {
    set k, t | k in keys && k in pieces && Attacker(pieces[k], color) && t in MovesOf(pieces, pieces[k]) :: t
  }

  /** `allOpponentMoves` after de-duplication: every square some piece of
      `color` that is not superposed can move to. */
  function AttackSet(pieces: PieceMap, color: Color): set<string> {
    AttackFrom(pieces, color, pieces.Keys)
  }

  /** Adding one key to the scanned keys adds exactly that piece's moves. */
  lemma AttackFromInsert(pieces: PieceMap, color: Color, keys: set<string>, k: string)
    requires k in pieces
    ensures AttackFrom(pieces, color, keys + {k})
         == AttackFrom(pieces, color, keys)
            + (if Attacker(pieces[k], color) then (set t | t in MovesOf(pieces, pieces[k])) else {})
  {
  }

  /** Every attacked square is a square id not held by the attacker's own
      colour. */
  lemma AttackSetSound(pieces: PieceMap, color: Color, t: string)
    requires t in AttackSet(pieces, color)
    ensures IsSquareId(t) && !OwnPiece(pieces, t, color)
  {
    var k :| k in pieces && Attacker(pieces[k], color) && t in MovesOf(pieces, pieces[k]);
    MovesOfSound(pieces, pieces[k], t);
  }

  // ---------------------------------------------------------------------
  // What one collapse pass may do

  /** The keys that hold superposed pieces of the mover before the pass. */
  function SplitKeys(pieces: PieceMap, mover: Color): set<string> {
    set k | k in pieces && MoverSuperposed(pieces[k], mover)
  }

  /** The slots of those pieces. */
  function Slots(pieces: PieceMap, mover: Color): set<string> {
    set k, s | k in pieces && MoverSuperposed(pieces[k], mover) && s in pieces[k].quantumPositions :: s
  }

  /** The keys the pass may remove or overwrite. */
  function Touched(pieces: PieceMap, mover: Color): set<string> {
    SplitKeys(pieces, mover) + Slots(pieces, mover)
  }

  /** The key `k` held a superposed piece of the mover before the pass. */
  ghost predicate SplitAt(before: PieceMap, k: string, mover: Color) {
    k in before && MoverSuperposed(before[k], mover) && IsSuperposed(before[k])
  }

  /** The piece under `k` before the pass is captured by the collapse rule. */
  ghost predicate CapturedAt(before: PieceMap, k: string, mover: Color, attack: set<string>) {
    SplitAt(before, k, mover) && ResolvePiece(before[k], attack).None?
  }

  /** `v` is what the collapse rule makes of the piece under `k` before the
      pass, and differs from it: the piece collapsed. */
  ghost predicate CollapsedFrom(before: PieceMap, k: string, mover: Color, attack: set<string>, v: Piece) {
    SplitAt(before, k, mover) && ResolvePiece(before[k], attack) == Some(v) && v != before[k]
  }

  /** The loop invariant of the collapse pass, with `pending` the keys of the
      snapshot not yet visited: the map is still well formed; outside the
      touched keys nothing changed; no key was added except a slot; every
      superposed entry is an original one; every visited superposed piece of
      the mover is unobserved; a key is gone only when it was visited and its
      piece captured; every new or changed entry is the collapse of a
      superposed piece of the mover, stored under that piece's old key or
      under its safe square; and that safe square holds a collapse standing
      on it. */
  ghost predicate PassInvariant(before: PieceMap, after: PieceMap, mover: Color, attack: set<string>, pending: set<string>) {
    PassFrame(before, after, mover, attack, pending) && PassTrace(before, after, mover, attack, pending)
  }

  /** The first five clauses of the invariant: what the pass may change. */
  ghost predicate PassFrame(before: PieceMap, after: PieceMap, mover: Color, attack: set<string>, pending: set<string>) {
    && WellFormedBoard(after)
    && after - Touched(before, mover) == before - Touched(before, mover)
    && after.Keys <= before.Keys + Touched(before, mover)
    && (forall k :: k in after && after[k].inSuperposition ==> k in before && after[k] == before[k])
    && (forall k :: k in after && k !in pending && MoverSuperposed(after[k], mover) ==> Unobserved(after[k], attack))
  }

  /** The last three clauses: how each removed or changed key came about. */
  ghost predicate PassTrace(before: PieceMap, after: PieceMap, mover: Color, attack: set<string>, pending: set<string>) {
    TraceRemoved(before, after, mover, attack, pending) && TraceChanged(before, after, mover, attack) && TraceSafe(before, after, mover, attack)
  }

  /** A key is gone only when it was visited and its piece captured. */
  ghost predicate TraceRemoved(before: PieceMap, after: PieceMap, mover: Color, attack: set<string>, pending: set<string>) {
    forall k :: k in before && k !in after ==> k !in pending && CapturedAt(before, k, mover, attack)
  }

  /** A new or changed entry is a collapse, under the piece's old key or under
      its safe square. */
  ghost predicate TraceChanged(before: PieceMap, after: PieceMap, mover: Color, attack: set<string>) {
    forall k :: k in after && (k !in before || after[k] != before[k]) ==>
      exists k' :: CollapsedFrom(before, k', mover, attack, after[k]) && (k == k' || Some(k) == after[k].position)
  }

  /** The safe square of a new or changed entry holds a collapse standing
      on that square. */
  ghost predicate TraceSafe(before: PieceMap, after: PieceMap, mover: Color, attack: set<string>) {
    forall k :: k in after && (k !in before || after[k] != before[k]) ==>
      after[k].position.Some? && HoldsCollapse(before, after, mover, attack, after[k].position.value)
  }

  /** The square `s` holds the collapse of a superposed piece of the mover,
      standing on `s`. */
  ghost predicate HoldsCollapse(before: PieceMap, after: PieceMap, mover: Color, attack: set<string>, s: string) {
    && s in after && after[s].position == Some(s)
    && exists k :: CollapsedFrom(before, k, mover, attack, after[s])
  }

  /** A finished pass for `mover`: the invariant with every key visited,
      against the attack set of the mover's opponent on the map as it was
      before the pass. */
  ghost predicate CollapsePass(before: PieceMap, after: PieceMap, mover: Color) {
    PassInvariant(before, after, mover, AttackSet(before, Opponent(mover)), {})
  }

  lemma UpdateTouched(m: PieceMap, touched: set<string>, k: string, v: Piece)
    requires k in touched
    ensures m[k := v] - touched == m - touched
  {
    assert (m[k := v] - touched).Keys == (m - touched).Keys;
  }

  lemma RemoveTouched(m: PieceMap, touched: set<string>, k: string)
    requires k in touched
    ensures (m - {k}) - touched == m - touched
  {
    assert ((m - {k}) - touched).Keys == (m - touched).Keys;
  }

  /** Before the first step nothing has changed and every key is pending. */
  lemma PassStart(before: PieceMap, mover: Color, attack: set<string>)
    requires WellFormedBoard(before)
    ensures PassInvariant(before, before, mover, attack, before.Keys)
  {
    assert before - Touched(before, mover) == before - Touched(before, mover);
  }

  /** One loop step keeps the invariant. */
  lemma ResolveStep(before: PieceMap, m: PieceMap, mover: Color, attack: set<string>, pending: set<string>, key: string)
    requires PassInvariant(before, m, mover, attack, pending)
    requires key in pending
    ensures PassInvariant(before, PassStep(m, key, mover, attack), mover, attack, pending - {key})
  {
    var touched := Touched(before, mover);
    if key in m && MoverSuperposed(m[key], mover) {
      var piece := m[key];
      assert key in before && before[key] == piece;
      assert key in SplitKeys(before, mover);
      assert IsSuperposed(piece);
      var r := ResolvePiece(piece, attack);
      if r.None? {
        RemovedStep(before, m, mover, attack, pending, key);
      } else if r.value != piece {
        CollapsedStep(before, m, mover, attack, pending, key, r.value);
      }
    }
  }

  /** The step that removes a captured piece keeps the invariant. */
  lemma RemovedStep(before: PieceMap, m: PieceMap, mover: Color, attack: set<string>, pending: set<string>, key: string)
    requires PassInvariant(before, m, mover, attack, pending)
    requires key in pending && key in m && MoverSuperposed(m[key], mover) && IsSuperposed(m[key])
    requires ResolvePiece(m[key], attack).None?
    ensures PassInvariant(before, m - {key}, mover, attack, pending - {key})
  {
    assert key in SplitKeys(before, mover);
    assert CapturedAt(before, key, mover, attack);
    RemoveTouched(m, Touched(before, mover), key);
    RemovedSafe(before, m, mover, attack, key);
  }

  /** Removing a key that holds no piece standing on a square removes no
      safe square. */
  lemma RemovedSafe(before: PieceMap, m: PieceMap, mover: Color, attack: set<string>, key: string)
    requires TraceSafe(before, m, mover, attack)
    requires key in m && m[key].position.None?
    ensures TraceSafe(before, m - {key}, mover, attack)
  {
    var after := m - {key};
    forall j | j in after && (j !in before || after[j] != before[j])
      ensures after[j].position.Some? && HoldsCollapse(before, after, mover, attack, after[j].position.value)
    {
      assert after[m[j].position.value] == m[m[j].position.value];
    }
  }

  /** The step that writes a collapsed piece under its key and its safe
      square keeps the invariant. */
  lemma CollapsedStep(before: PieceMap, m: PieceMap, mover: Color, attack: set<string>, pending: set<string>, key: string, c: Piece)
    requires PassInvariant(before, m, mover, attack, pending)
    requires key in m && MoverSuperposed(m[key], mover) && IsSuperposed(m[key])
    requires ResolvePiece(m[key], attack) == Some(c) && c != m[key]
    ensures PassInvariant(before, m[key := c][c.position.value := c], mover, attack, pending - {key})
  {
    CollapsedFrame(before, m, mover, attack, pending, key, c);
    CollapsedTrace(before, m, mover, attack, pending, key, c);
  }

  /** That step changes only touched keys and leaves no superposed copy. */
  lemma CollapsedFrame(before: PieceMap, m: PieceMap, mover: Color, attack: set<string>, pending: set<string>, key: string, c: Piece)
    requires PassFrame(before, m, mover, attack, pending)
    requires key in m && MoverSuperposed(m[key], mover) && IsSuperposed(m[key])
    requires ResolvePiece(m[key], attack) == Some(c) && c != m[key]
    ensures PassFrame(before, m[key := c][c.position.value := c], mover, attack, pending - {key})
  {
    var touched := Touched(before, mover);
    assert key in SplitKeys(before, mover);
    assert c.position.value in Slots(before, mover);
    var m1 := m[key := c];
    UpdateTouched(m, touched, key, c);
    UpdateTouched(m1, touched, c.position.value, c);
  }

  /** Both entries that step writes are the collapse of the piece under `key`. */
  lemma CollapsedTrace(before: PieceMap, m: PieceMap, mover: Color, attack: set<string>, pending: set<string>, key: string, c: Piece)
    requires PassFrame(before, m, mover, attack, pending) && PassTrace(before, m, mover, attack, pending)
    requires key in m && MoverSuperposed(m[key], mover) && IsSuperposed(m[key])
    requires ResolvePiece(m[key], attack) == Some(c) && c != m[key]
    ensures PassTrace(before, m[key := c][c.position.value := c], mover, attack, pending - {key})
  {
    CollapsedChanged(before, m, mover, attack, key, c);
    CollapsedSafe(before, m, mover, attack, key, c);
  }

  /** Both entries the step writes are the collapse of the piece under `key`. */
  lemma CollapsedChanged(before: PieceMap, m: PieceMap, mover: Color, attack: set<string>, key: string, c: Piece)
    requires TraceChanged(before, m, mover, attack)
    requires key in m && key in before && m[key] == before[key] && MoverSuperposed(m[key], mover) && IsSuperposed(m[key])
    requires ResolvePiece(m[key], attack) == Some(c) && c != m[key]
    ensures TraceChanged(before, m[key := c][c.position.value := c], mover, attack)
  {
    assert CollapsedFrom(before, key, mover, attack, c);
  }

  /** The step writes the collapse on its own square first, and then under
      a key that holds no piece standing on a square, so every safe square
      still holds a collapse standing on it. */
  lemma CollapsedSafe(before: PieceMap, m: PieceMap, mover: Color, attack: set<string>, key: string, c: Piece)
    requires TraceSafe(before, m, mover, attack)
    requires key in m && m[key].position.None? && IsClassical(c)
    requires CollapsedFrom(before, key, mover, attack, c)
    ensures TraceSafe(before, m[key := c][c.position.value := c], mover, attack)
  {
    var s := c.position.value;
    SafeWrite(before, m, mover, attack, s, c);
    if key != s {
      assert HoldsCollapse(before, m[s := c], mover, attack, s);
      SafeWrite(before, m[s := c], mover, attack, key, c);
    }
    WriteTwice(m, key, s, c);
  }

  /** Writing one value under two keys gives the same map in either order. */
  lemma WriteTwice(m: PieceMap, a: string, b: string, v: Piece)
    ensures m[a := v][b := v] == m[b := v][a := v]
  {
  }

  /** Writing a collapse on its own square, or under a key holding no piece
      that stands on a square while its square already holds a collapse,
      keeps every safe square holding a collapse. */
  lemma SafeWrite(before: PieceMap, m: PieceMap, mover: Color, attack: set<string>, k: string, v: Piece)
    requires TraceSafe(before, m, mover, attack) && (exists k' :: CollapsedFrom(before, k', mover, attack, v))
    requires v.position == Some(k) ||
      (k in m && m[k].position.None? && v.position.Some? && HoldsCollapse(before, m, mover, attack, v.position.value))
    ensures TraceSafe(before, m[k := v], mover, attack)
  {
    var after := m[k := v];
    forall j | j in after && (j !in before || after[j] != before[j])
      ensures after[j].position.Some? && HoldsCollapse(before, after, mover, attack, after[j].position.value)
    {
      var t := after[j].position.value;
      if t == k {
        assert after[t] == v;
      } else {
        assert after[t] == m[t];
      }
    }
  }

  /** With no superposed piece of the mover on the board, a pass changes
      nothing. This is the case of every board a game reaches, since a split
      piece is never stored in the map. */
  lemma CollapseNoop(before: PieceMap, after: PieceMap, mover: Color)
    requires PlacedAtKeys(before) && CollapsePass(before, after, mover)
    ensures after == before
  {
    assert Touched(before, mover) == {} by {
      assert SplitKeys(before, mover) == {};
      assert Slots(before, mover) == {};
    }
    assert after - {} == after;
    assert before - {} == before;
  }

  /** What a finished pass does to a superposed piece of the mover: its key
      is gone only when both slots are attacked; if the key still holds the
      piece, no slot is attacked; otherwise the key holds a classical piece. */
  lemma CollapsePassOutcome(before: PieceMap, after: PieceMap, mover: Color, k: string)
    requires CollapsePass(before, after, mover)
    requires k in before && MoverSuperposed(before[k], mover) && IsSuperposed(before[k])
    ensures var attack := AttackSet(before, Opponent(mover));
      var p := before[k];
      && (k !in after ==> p.quantumPositions[0] in attack && p.quantumPositions[1] in attack)
      && (k in after && after[k] == p ==> Unobserved(p, attack))
      && (k in after && after[k] != p ==> IsClassical(after[k]))
  {
    var attack := AttackSet(before, Opponent(mover));
    if k in after && after[k] != before[k] {
      var k' :| CollapsedFrom(before, k', mover, attack, after[k]);
    }
  }

  /** No two superposed pieces of the mover share the slot `s`. */
  ghost predicate SoleSlot(before: PieceMap, mover: Color, s: string) {
    forall k1, k2 ::
      && k1 in before && MoverSuperposed(before[k1], mover) && s in before[k1].quantumPositions
      && k2 in before && MoverSuperposed(before[k2], mover) && s in before[k2].quantumPositions
      ==> k1 == k2
  }

  /** Every entry a finished pass adds or changes is a superposed piece of
      the mover collapsed onto one of its slots that the opponent does not
      attack, with its colour, kind and `hasMoved` kept; it is stored under
      that piece's old key or under the safe square. The safe square holds a
      classical piece standing on it that is the collapse of a superposed
      piece of the mover, and that is this very collapse when no other
      superposed piece of the mover has the square among its slots. */
  lemma CollapsePassChanged(before: PieceMap, after: PieceMap, mover: Color, k: string)
    requires CollapsePass(before, after, mover)
    requires k in after && (k !in before || after[k] != before[k])
    ensures IsClassical(after[k]) && after[k].color == mover
    ensures exists k' ::
      && k' in before && MoverSuperposed(before[k'], mover)
      && (k == k' || k == after[k].position.value)
      && after[k].position.value in before[k'].quantumPositions
      && after[k].position.value !in AttackSet(before, Opponent(mover))
      && after[k].kind == before[k'].kind && after[k].hasMoved == before[k'].hasMoved
    ensures var s := after[k].position.value;
      && s in after && IsClassical(after[s]) && after[s].position == Some(s)
      && (exists k'' ::
            && k'' in before && MoverSuperposed(before[k''], mover) && IsSuperposed(before[k''])
            && s in before[k''].quantumPositions
            && ResolvePiece(before[k''], AttackSet(before, Opponent(mover))) == Some(after[s]))
      && (SoleSlot(before, mover, s) ==> after[s] == after[k])
  {
    var attack := AttackSet(before, Opponent(mover));
    var k' :| CollapsedFrom(before, k', mover, attack, after[k]) && (k == k' || Some(k) == after[k].position);
    ResolveSlot(before[k'], attack);
    ChangedSafe(before, after, mover, attack, k);
  }

  /** The safe square of a changed entry after a finished pass against any
      attack set: it holds a collapse standing on it, which is that entry
      when no other superposed piece of the mover shares the square. */
  lemma ChangedSafe(before: PieceMap, after: PieceMap, mover: Color, attack: set<string>, k: string)
    requires PassInvariant(before, after, mover, attack, {})
    requires k in after && (k !in before || after[k] != before[k])
    ensures after[k].position.Some?
    ensures var s := after[k].position.value;
      && s in after && IsClassical(after[s]) && after[s].position == Some(s)
      && (exists k'' ::
            && k'' in before && MoverSuperposed(before[k''], mover) && IsSuperposed(before[k''])
            && s in before[k''].quantumPositions
            && ResolvePiece(before[k''], attack) == Some(after[s]))
      && (SoleSlot(before, mover, s) ==> after[s] == after[k])
  {
    var s := after[k].position.value;
    var k' :| CollapsedFrom(before, k', mover, attack, after[k]) && (k == k' || Some(k) == after[k].position);
    ResolveSlot(before[k'], attack);
    var k'' :| CollapsedFrom(before, k'', mover, attack, after[s]);
    ResolveSlot(before[k''], attack);
  }

  /** A split white piece alone on the board is attacked by nobody, so the
      pass for white keeps its key. */
  lemma LoneSplitKept(p: Piece, after: PieceMap)
    requires IsSuperposed(p) && p.color == White
    requires CollapsePass(map["a1" := p], after, White)
    ensures "a1" in after
  {
    var before := map["a1" := p];
    assert AttackSet(before, Black) == {};
    CollapsePassOutcome(before, after, White, "a1");
  }

  /** A split piece of the mover whose first slot is attacked and whose second
      is not collapses: its key holds it classical on the second slot; the
      second slot holds a collapse standing on it, and holds this very piece
      when no other superposed piece of the mover has that slot. */
  lemma ObservedSplitCollapses(before: PieceMap, after: PieceMap, mover: Color, k: string)
    requires CollapsePass(before, after, mover)
    requires k in before && MoverSuperposed(before[k], mover) && IsSuperposed(before[k])
    requires before[k].quantumPositions[0] in AttackSet(before, Opponent(mover))
    requires before[k].quantumPositions[1] !in AttackSet(before, Opponent(mover))
    requires forall k' :: k' in before && k' != k && MoverSuperposed(before[k'], mover) ==> k !in before[k'].quantumPositions
    ensures k in after && after[k] == Collapsed(before[k], before[k].quantumPositions[1])
    ensures var safe := before[k].quantumPositions[1];
      && safe in after && IsClassical(after[safe]) && after[safe].position == Some(safe)
      && (SoleSlot(before, mover, safe) ==> after[safe] == after[k])
  {
    ObservedCollapse(before, after, mover, AttackSet(before, Opponent(mover)), k);
  }

  /** The only superposed piece of the mover, with its first slot alone
      attacked, ends the pass collapsed onto its second slot under both its
      key and that slot, whatever stood on the slot before. */
  lemma SoleSplitCollapses(before: PieceMap, after: PieceMap, mover: Color, k: string)
    requires CollapsePass(before, after, mover)
    requires k in before && MoverSuperposed(before[k], mover) && IsSuperposed(before[k])
    requires before[k].quantumPositions[0] in AttackSet(before, Opponent(mover))
    requires before[k].quantumPositions[1] !in AttackSet(before, Opponent(mover))
    requires forall k' :: k' in before && k' != k ==> !MoverSuperposed(before[k'], mover)
    ensures var safe := before[k].quantumPositions[1];
      && k in after && safe in after
      && after[k] == after[safe] == Collapsed(before[k], safe)
  {
    var safe := before[k].quantumPositions[1];
    assert SoleSlot(before, mover, safe);
    ObservedSplitCollapses(before, after, mover, k);
  }

  /** The same for any attack set the finished pass was run against. */
  lemma ObservedCollapse(before: PieceMap, after: PieceMap, mover: Color, attack: set<string>, k: string)
    requires PassInvariant(before, after, mover, attack, {})
    requires k in before && MoverSuperposed(before[k], mover) && IsSuperposed(before[k])
    requires before[k].quantumPositions[0] in attack && before[k].quantumPositions[1] !in attack
    requires forall k' :: k' in before && k' != k && MoverSuperposed(before[k'], mover) ==> k !in before[k'].quantumPositions
    ensures k in after && after[k] == Collapsed(before[k], before[k].quantumPositions[1])
    ensures var safe := before[k].quantumPositions[1];
      && safe in after && IsClassical(after[safe]) && after[safe].position == Some(safe)
      && (SoleSlot(before, mover, safe) ==> after[safe] == after[k])
  {
    var p := before[k];
    ResolveObserved(p, attack);
    assert k in after;
    assert after[k] != p by {
      assert p.quantumPositions[0] in p.quantumPositions;
    }
    var k' :| CollapsedFrom(before, k', mover, attack, after[k]) && (k == k' || Some(k) == after[k].position);
    ResolveSlot(before[k'], attack);
    ChangedSafe(before, after, mover, attack, k);
  }

  /** The collapse rule on a piece whose first slot alone is attacked. */
  lemma ResolveObserved(p: Piece, attack: set<string>)
    requires IsSuperposed(p)
    requires p.quantumPositions[0] in attack && p.quantumPositions[1] !in attack
    ensures ResolvePiece(p, attack) == Some(Collapsed(p, p.quantumPositions[1]))
  {
  }

  /** A collapsed piece stands on one of its slots. */
  lemma ResolveSlot(p: Piece, attack: set<string>)
    requires IsSuperposed(p) && ResolvePiece(p, attack).Some? && ResolvePiece(p, attack).value != p
    ensures ResolvePiece(p, attack).value.position.value in p.quantumPositions
  {
  }

  /** A finished pass leaves no superposed piece of the mover that the
      opponent attacks, and every superposed piece left is an original one. */
  lemma CollapsePassSettled(before: PieceMap, after: PieceMap, mover: Color, k: string)
    requires CollapsePass(before, after, mover)
    requires k in after && after[k].inSuperposition
    ensures k in before && after[k] == before[k]
    ensures after[k].color == mover ==> Unobserved(after[k], AttackSet(before, Opponent(mover)))
  {
  }

  // ---------------------------------------------------------------------
  // Classical and quantum moves on the map

  /** The moved piece of `executeMove`: not superposed, at the target, and a
      pawn has moved. */
  function MovedPiece(piece: Piece, target: string): Piece {
    var p := if piece.inSuperposition then piece.(inSuperposition := false, quantumPositions := []) else piece;
    var p := p.(position := Some(target));
    if p.kind == Pawn then p.(hasMoved := true) else p
  }

  /** `executeMove`'s effect on the map: a piece on the target is captured,
      a classical piece leaves its square, the moved piece sits on the target.
      The piece is changed in place, so every other entry that stores it
      shows the moved piece. */
  function MoveOnBoard(pieces: PieceMap, piece: Piece, target: string): PieceMap
    requires piece.inSuperposition || piece.position.Some?
  {
    var captured := pieces - {target};
    var moved := MovedPiece(piece, target);
    var left := if piece.inSuperposition then captured else captured - {piece.position.value};
    Retarget(left, piece, moved)[target := moved]
  }

  /** Every entry equal to `piece` replaced by `moved`. */
  function Retarget(pieces: PieceMap, piece: Piece, moved: Piece): PieceMap {
    map k | k in pieces :: if pieces[k] == piece then moved else pieces[k]
  }

  /** On a board whose pieces stand at their keys, no key but its own square
      stores a classical piece. */
  lemma VacatedAbsent(pieces: PieceMap, piece: Piece)
    requires PlacedAtKeys(pieces) && IsClassical(piece)
    ensures forall k :: k in Vacate(pieces, piece) ==> Vacate(pieces, piece)[k] != piece
  {
  }

  /** The split `handleQuantumSelection` asks for: the targets are square
      ids, and on a board whose pieces stand at their keys no key is left
      storing the selected piece once its square is deleted. */
  lemma SplitOfSelected(pieces: PieceMap, piece: Piece, targets: seq<string>)
    requires PlacedAtKeys(pieces) && IsClassical(piece) && |targets| == 2
    requires piece.position.value in pieces && pieces[piece.position.value] == piece
    requires targets[0] in MovesOf(pieces, piece) && targets[1] in MovesOf(pieces, piece)
    ensures IsSquareId(targets[0]) && IsSquareId(targets[1])
    ensures Retarget(Vacate(pieces, piece), piece, SplitPiece(piece, targets)) == Vacate(pieces, piece)
    ensures PlacedAtKeys(Vacate(pieces, piece))
  {
    MovesOfSound(pieces, piece, targets[0]);
    MovesOfSound(pieces, piece, targets[1]);
    VacatedAbsent(pieces, piece);
    RetargetAbsent(Vacate(pieces, piece), piece, SplitPiece(piece, targets));
  }

  /** A map that stores the piece under no key is left as it is. */
  lemma RetargetAbsent(pieces: PieceMap, piece: Piece, moved: Piece)
    requires forall k :: k in pieces ==> pieces[k] != piece
    ensures Retarget(pieces, piece, moved) == pieces
  {
    var r := Retarget(pieces, piece, moved);
    assert r.Keys == pieces.Keys;
  }

  /** A move of a superposed piece: the moved piece is classical on the
      target; every other key keeps its entry, except that an entry storing
      the superposed piece now shows the moved one; no key is added but the
      target; and no entry is left superposed in that piece's state. */
  lemma SuperposedMove(pieces: PieceMap, piece: Piece, target: string)
    requires IsSuperposed(piece) && IsSquareId(target)
    ensures var r := MoveOnBoard(pieces, piece, target);
      var moved := MovedPiece(piece, target);
      && IsClassical(moved) && moved.position == Some(target)
      && moved.color == piece.color && moved.kind == piece.kind
      && r.Keys == pieces.Keys + {target} && r[target] == moved
      && (forall k :: k in pieces && k != target ==> r[k] == (if pieces[k] == piece then moved else pieces[k]))
      && (forall k :: k in r ==> r[k] != piece)
  {
    var captured := pieces - {target};
    assert Retarget(captured, piece, MovedPiece(piece, target)).Keys == captured.Keys;
  }

  /** A classical move to another square: the piece stands on the target
      under the target's key, classical, with the same colour and kind and
      with `hasMoved` set exactly for pawns; its old key is gone; every other
      key is as before, except that one that also stored the piece shows the
      moved piece; exactly the captured piece, if any, leaves the board; and
      the placement invariant is kept. */
  lemma ClassicalMove(pieces: PieceMap, piece: Piece, target: string)
    requires IsClassical(piece) && piece.position.value in pieces && pieces[piece.position.value] == piece
    requires IsSquareId(target) && target != piece.position.value
    ensures var r := MoveOnBoard(pieces, piece, target);
      && target in r && IsClassical(r[target]) && r[target].position == Some(target)
      && r[target].color == piece.color && r[target].kind == piece.kind
      && r[target].hasMoved == (piece.hasMoved || piece.kind == Pawn)
      && piece.position.value !in r
      && (forall k :: k != target && k != piece.position.value ==>
            (k in r <==> k in pieces) && (k in r ==> r[k] == (if pieces[k] == piece then r[target] else pieces[k])))
      && |r| == (if target in pieces then |pieces| - 1 else |pieces|)
    ensures PlacedAtKeys(pieces) ==> PlacedAtKeys(MoveOnBoard(pieces, piece, target))
  {
    MoveCount(pieces, piece, target);
    MovePlaced(pieces, piece, target);
  }

  /** A piece a collapse left under its old key a1 and its square c3, moved
      to d5: c3 is vacated and a1 shows the moved piece. */
  lemma AliasedMoveShown(c: Piece)
    requires IsClassical(c) && c.position == Some("c3")
    ensures var r := MoveOnBoard(map["a1" := c, "c3" := c], c, "d5");
      "c3" !in r && r["a1"] == r["d5"] == MovedPiece(c, "d5")
  {
  }

  lemma MoveCount(pieces: PieceMap, piece: Piece, target: string)
    requires IsClassical(piece) && piece.position.value in pieces && target != piece.position.value
    ensures |MoveOnBoard(pieces, piece, target)| == (if target in pieces then |pieces| - 1 else |pieces|)
  {
    var origin := piece.position.value;
    var vacated := Retarget(pieces - {target} - {origin}, piece, MovedPiece(piece, target));
    assert vacated.Keys == pieces.Keys - {target} - {origin};
    if target in pieces {
      assert |pieces.Keys - {target}| == |pieces.Keys| - 1;
    } else {
      assert pieces.Keys - {target} == pieces.Keys;
    }
    assert |pieces.Keys - {target} - {origin}| == |pieces.Keys - {target}| - 1;
    assert MoveOnBoard(pieces, piece, target).Keys == vacated.Keys + {target};
  }

  lemma MovePlaced(pieces: PieceMap, piece: Piece, target: string)
    requires IsClassical(piece) && IsSquareId(target)
    ensures PlacedAtKeys(pieces) ==> PlacedAtKeys(MoveOnBoard(pieces, piece, target))
  {
  }

  /** A move keeps the map well formed, for a classical and for a superposed
      piece alike. */
  lemma MoveWellFormed(pieces: PieceMap, piece: Piece, target: string)
    requires WellFormedBoard(pieces) && WellFormedPiece(piece) && IsSquareId(target)
    ensures WellFormedBoard(MoveOnBoard(pieces, piece, target))
    ensures IsClassical(MoveOnBoard(pieces, piece, target)[target])
  {
  }

  /** The piece `executeQuantumMove` leaves behind. */
  function SplitPiece(piece: Piece, targets: seq<string>): Piece {
    var p := piece.(inSuperposition := true, quantumPositions := targets, position := None);
    if p.kind == Pawn then p.(hasMoved := true) else p
  }

  /** `delete board.pieces[originalPos]`. For a superposed piece the key
      would be the string "null", which no well-formed map holds. */
  function Vacate(pieces: PieceMap, piece: Piece): PieceMap {
    if piece.position.Some? then pieces - {piece.position.value} else pieces
  }

  /** A split to two distinct squares gives a superposed piece of the same
      colour and kind on exactly those squares, and the collapse rule then
      sends it to the one square that is not attacked when exactly one is. */
  lemma SplitThenObserve(piece: Piece, t1: string, t2: string, attack: set<string>)
    requires IsClassical(piece) && IsSquareId(t1) && IsSquareId(t2) && t1 != t2
    ensures var q := SplitPiece(piece, [t1, t2]);
      && IsSuperposed(q) && q.quantumPositions == [t1, t2] && q.position.None?
      && q.color == piece.color && q.kind == piece.kind
      && q.hasMoved == (piece.hasMoved || piece.kind == Pawn)
    ensures t1 in attack && t2 !in attack ==>
      ResolvePiece(SplitPiece(piece, [t1, t2]), attack).Some? &&
      ResolvePiece(SplitPiece(piece, [t1, t2]), attack).value.position == Some(t2)
    ensures t2 in attack && t1 !in attack ==>
      ResolvePiece(SplitPiece(piece, [t1, t2]), attack).Some? &&
      ResolvePiece(SplitPiece(piece, [t1, t2]), attack).value.position == Some(t1)
  {
    var q := SplitPiece(piece, [t1, t2]);
    assert IsSuperposed(q);
    if t1 in attack && t2 !in attack {
      assert !Unobserved(q, attack);
    }
    if t2 in attack && t1 !in attack {
      assert !Unobserved(q, attack);
    }
  }

  // ---------------------------------------------------------------------
  // The game object

  /** A piece the current player has selected on a reachable board. */
  predicate SelectedOnBoard(pieces: PieceMap, piece: Piece, player: Color) {
    piece.color == player && IsClassical(piece)
    && piece.position.value in pieces && pieces[piece.position.value] == piece
  }

  /** The `game` object. `board` is the global `board` object. */
  class GameState {
    const board: BoardState
    var currentPlayer: Color
    var selectedPiece: Option<Piece>
    var possibleMoves: seq<string>
    var quantumSelection: seq<string>
    var isQuantumMove: bool

    /** The state every click keeps: pieces stand on their keys (no split
        piece is ever stored); a selected piece is the current player's, is
        on the board, and `possibleMoves` are its moves; the quantum
        selection holds at most one of those moves between clicks. */
    ghost predicate Valid()
      reads this, board
    {
      && PlacedAtKeys(board.pieces)
      && (selectedPiece.None? ==> possibleMoves == [] && quantumSelection == [])
      && (selectedPiece.Some? ==>
            && SelectedOnBoard(board.pieces, selectedPiece.value, currentPlayer)
            && possibleMoves == MovesOf(board.pieces, selectedPiece.value))
      && |quantumSelection| <= 1
      && (forall q :: q in quantumSelection ==> q in possibleMoves)
    }

    /** The state `clearSelection` leaves. */
    predicate Cleared()
      reads this
    {
      selectedPiece.None? && possibleMoves == [] && !isQuantumMove && quantumSelection == []
    }

    /** The object literal, with an empty board. */
    constructor ()
      ensures fresh(board) && board.pieces == map[]
      ensures currentPlayer == White && Cleared()
      ensures Valid()
    {
      board := new BoardState();
      currentPlayer := White;
      selectedPiece := None;
      possibleMoves := [];
      quantumSelection := [];
      isQuantumMove := false;
    }

    /** `start`: the initial placement, white to move, nothing selected. */
    method Start()
      modifies this, board
      ensures board.pieces == InitialPieces()
      ensures currentPlayer == White && Cleared()
      ensures Valid()
    {
      board.SetupPieces();
      currentPlayer := White;
      selectedPiece := None;
      possibleMoves := [];
      isQuantumMove := false;
      quantumSelection := [];
      InitialPiecesPlaced();
    }

    /** `clearSelection`. */
    method ClearSelection()
      modifies this
      ensures Cleared() && currentPlayer == old(currentPlayer)
    {
      selectedPiece := None;
      possibleMoves := [];
      isQuantumMove := false;
      quantumSelection := [];
    }

    /** `selectPiece`: a superposed piece may only go to one of its slots,
        any other piece to its possible moves. */
    method SelectPiece(piece: Piece)
      requires piece.inSuperposition || Movable(piece)
      modifies this
      ensures selectedPiece == Some(piece)
      ensures possibleMoves == if piece.inSuperposition then piece.quantumPositions else MovesOf(board.pieces, piece)
      ensures !isQuantumMove && quantumSelection == [] && currentPlayer == old(currentPlayer)
    {
      ClearSelection();
      selectedPiece := Some(piece);
      var moves;
      if piece.inSuperposition {
        moves := piece.quantumPositions;
      } else {
        moves := GetPossibleMoves(board, piece);
      }
      possibleMoves := moves;
    }

    /** `getPieceAt`: the classical piece on the square, else a superposed
        piece of the map with the square among its slots (the first one the
        scan meets), else None. */
    method GetPieceAt(squareId: string) returns (r: Option<Piece>)
      ensures squareId in board.pieces ==> r == Some(board.pieces[squareId])
      ensures squareId !in board.pieces && r.Some? ==>
        r.value in board.pieces.Values && r.value.inSuperposition && squareId in r.value.quantumPositions
      ensures squareId !in board.pieces && r.None? ==>
        forall k :: k in board.pieces ==>
          !(board.pieces[k].inSuperposition && squareId in board.pieces[k].quantumPositions)
    {
      var classicalPiece := board.GetPiece(squareId);
      if classicalPiece.Some? {
        return classicalPiece;
      }
      var pending := board.pieces.Keys;
      while pending != {}
        invariant pending <= board.pieces.Keys
        invariant forall k :: k in board.pieces && k !in pending ==>
          !(board.pieces[k].inSuperposition && squareId in board.pieces[k].quantumPositions)
        decreases |pending|
      {
        var key :| key in pending;
        var piece := board.pieces[key];
        if piece.inSuperposition && squareId in piece.quantumPositions {
          return Some(piece);
        }
        pending := pending - {key};
      }
      return None;
    }

    /** The first loop of `checkForQuantumCollapse`: the de-duplicated moves
        of the pieces of `color` that are not superposed. */
    method OpponentAttackSet(color: Color) returns (attack: set<string>)
      requires WellFormedBoard(board.pieces)
      ensures attack == AttackSet(board.pieces, color)
    {
      attack := {};
      var pending := board.pieces.Keys;
      while pending != {}
        invariant pending <= board.pieces.Keys
        invariant attack == AttackFrom(board.pieces, color, board.pieces.Keys - pending)
        decreases |pending|
      {
        var pos :| pos in pending;
        attack := AddAttacks(color, board.pieces.Keys - pending, pos, attack);
        assert board.pieces.Keys - (pending - {pos}) == (board.pieces.Keys - pending) + {pos};
        pending := pending - {pos};
      }
    }

    /** The body of that loop for the piece under `pos`. */
    method AddAttacks(color: Color, scanned: set<string>, pos: string, attack0: set<string>) returns (attack: set<string>)
      requires WellFormedBoard(board.pieces) && pos in board.pieces
      requires attack0 == AttackFrom(board.pieces, color, scanned)
      ensures attack == AttackFrom(board.pieces, color, scanned + {pos})
    {
      attack := attack0;
      var p := board.pieces[pos];
      AttackFromInsert(board.pieces, color, scanned, pos);
      if p.color == color && !p.inSuperposition {
        var moves := GetPossibleMoves(board, p);
        attack := attack + (set t | t in moves);
      }
    }

    /** `collapsePiece(piece, safePos, attackedPos)` for the piece stored
        under `key`: the piece object becomes classical on `safePos` and is
        stored there; the entry under `key` is the same object, so it shows
        the collapsed piece as well. */
    method CollapsePiece(key: string, piece: Piece, safePos: string, attackedPos: string)
      modifies board
      ensures board.pieces == old(board.pieces)[key := Collapsed(piece, safePos)][safePos := Collapsed(piece, safePos)]
    {
      var collapsed := piece.(inSuperposition := false, quantumPositions := [], position := Some(safePos));
      board.pieces := board.pieces[key := collapsed][safePos := collapsed];
    }

    /** `checkForQuantumCollapse`: computes the opponent's attack set on the
        map as it is, then visits a snapshot of the keys and applies the
        collapse rule to each superposed piece of the current player. */
    method CheckForQuantumCollapse()
      requires WellFormedBoard(board.pieces)
      modifies board
      ensures CollapsePass(old(board.pieces), board.pieces, currentPlayer)
    {
      var opponentColor := if currentPlayer == White then Black else White;
      var allOpponentMoves := OpponentAttackSet(opponentColor);
      ghost var before := board.pieces;
      var pending := board.pieces.Keys;
      PassStart(before, currentPlayer, allOpponentMoves);
      while pending != {}
        invariant PassInvariant(before, board.pieces, currentPlayer, allOpponentMoves, pending)
        decreases |pending|
      {
        var pos :| pos in pending;
        ResolveStep(before, board.pieces, currentPlayer, allOpponentMoves, pending, pos);
        CollapseAt(pos, allOpponentMoves);
        pending := pending - {pos};
      }
    }

    /** The body of the second loop for the key `pos`. */
    method CollapseAt(pos: string, allOpponentMoves: set<string>)
      requires WellFormedBoard(board.pieces)
      modifies board
      ensures board.pieces == PassStep(old(board.pieces), pos, currentPlayer, allOpponentMoves)
    {
      if pos in board.pieces {
        var piece := board.pieces[pos];
        if piece.color == currentPlayer && piece.inSuperposition {
          var pos1, pos2 := piece.quantumPositions[0], piece.quantumPositions[1];
          var canAttackPos1 := pos1 in allOpponentMoves;
          var canAttackPos2 := pos2 in allOpponentMoves;
          if canAttackPos1 && canAttackPos2 {
            board.pieces := board.pieces - {pos};
          } else if canAttackPos1 {
            CollapsePiece(pos, piece, pos2, pos1);
          } else if canAttackPos2 {
            CollapsePiece(pos, piece, pos1, pos2);
          }
        }
      }
    }

    /** `finishTurn`: the collapse pass for the player who just moved, then
        the turn passes and the selection is cleared. */
    method FinishTurn()
      requires WellFormedBoard(board.pieces)
      modifies this, board
      ensures CollapsePass(old(board.pieces), board.pieces, old(currentPlayer))
      ensures currentPlayer == Opponent(old(currentPlayer)) && Cleared()
    {
      CheckForQuantumCollapse();
      currentPlayer := if currentPlayer == White then Black else White;
      ClearSelection();
    }

    /** `executeMove`: capture on the target, leave the origin (or leave the
        superposition), stand on the target, then finish the turn. */
    method ExecuteMove(piece: Piece, targetPos: string)
      requires WellFormedBoard(board.pieces) && WellFormedPiece(piece) && IsSquareId(targetPos)
      modifies this, board
      ensures CollapsePass(MoveOnBoard(old(board.pieces), piece, targetPos), board.pieces, old(currentPlayer))
      ensures currentPlayer == Opponent(old(currentPlayer)) && Cleared()
    {
      MoveWellFormed(board.pieces, piece, targetPos);
      PlaceMoved(piece, targetPos);
      FinishTurn();
    }

    /** The map updates of `executeMove`, before the turn is finished. */
    method PlaceMoved(piece: Piece, targetPos: string)
      requires piece.inSuperposition || piece.position.Some?
      modifies board
      ensures board.pieces == MoveOnBoard(old(board.pieces), piece, targetPos)
    {
      var originalPos := piece.position;
      var capturedPiece := board.GetPiece(targetPos);
      if capturedPiece.Some? {
        board.pieces := board.pieces - {targetPos};
      }
      // the source changes the object in place and sets `hasMoved` after
      // storing it; with values the final piece is built first
      var moved := piece;
      if piece.inSuperposition {
        moved := moved.(inSuperposition := false, quantumPositions := []);
      }
      moved := moved.(position := Some(targetPos));
      if moved.kind == Pawn {
        moved := moved.(hasMoved := true);
      }
      if !piece.inSuperposition {
        board.pieces := board.pieces - {originalPos.value};
      }
      // every other key that stores the piece object shows the change
      board.pieces := Retarget(board.pieces, piece, moved);
      board.pieces := board.pieces[targetPos := moved];
    }

    /** `executeQuantumMove`: refused when both targets are occupied;
        otherwise the piece leaves its square and becomes superposed over
        the two targets, and the turn finishes. The superposed piece is
        returned; the piece object is changed in place, so a key other than
        its square that stored it shows the split piece. */
    method ExecuteQuantumMove(piece: Piece, targets: seq<string>) returns (split: Option<Piece>)
      requires WellFormedBoard(board.pieces) && |targets| == 2
      requires IsSquareId(targets[0]) && IsSquareId(targets[1])
      modifies this, board
      ensures targets[0] in old(board.pieces) && targets[1] in old(board.pieces) ==>
        && split.None? && board.pieces == old(board.pieces)
        && currentPlayer == old(currentPlayer) && Cleared()
      ensures !(targets[0] in old(board.pieces) && targets[1] in old(board.pieces)) ==>
        && split == Some(SplitPiece(piece, targets))
        && CollapsePass(Retarget(Vacate(old(board.pieces), piece), piece, split.value), board.pieces, old(currentPlayer))
        && currentPlayer == Opponent(old(currentPlayer)) && Cleared()
    {
      var originalPos := piece.position;
      if board.GetPiece(targets[0]).Some? && board.GetPiece(targets[1]).Some? {
        ClearSelection();
        return None;
      }
      if originalPos.Some? {
        board.pieces := board.pieces - {originalPos.value};
      }
      var q := piece.(inSuperposition := true, quantumPositions := targets, position := None);
      if q.kind == Pawn {
        q := q.(hasMoved := true);
      }
      board.pieces := Retarget(board.pieces, piece, q);
      split := Some(q);
      FinishTurn();
    }

    /** `handleQuantumSelection`: a square outside the possible moves or
        already chosen is ignored; the first choice is recorded; the second
        triggers the split. */
    method HandleQuantumSelection(squareId: string)
      requires Valid()
      modifies this, board
      ensures Valid()
      ensures squareId !in old(possibleMoves) || squareId in old(quantumSelection) ==>
        && board.pieces == old(board.pieces) && currentPlayer == old(currentPlayer)
        && selectedPiece == old(selectedPiece) && possibleMoves == old(possibleMoves)
        && quantumSelection == old(quantumSelection) && isQuantumMove == old(isQuantumMove)
      ensures squareId in old(possibleMoves) && old(quantumSelection) == [] ==>
        && board.pieces == old(board.pieces) && currentPlayer == old(currentPlayer)
        && selectedPiece == old(selectedPiece) && possibleMoves == old(possibleMoves)
        && quantumSelection == [squareId] && isQuantumMove == old(isQuantumMove)
      ensures squareId in old(possibleMoves) && |old(quantumSelection)| == 1 && squareId !in old(quantumSelection) ==>
        && Cleared()
        && (old(quantumSelection)[0] in old(board.pieces) && squareId in old(board.pieces) ==>
              board.pieces == old(board.pieces) && currentPlayer == old(currentPlayer))
        && (!(old(quantumSelection)[0] in old(board.pieces) && squareId in old(board.pieces)) ==>
              && board.pieces == old(board.pieces) - {old(selectedPiece).value.position.value}
              && currentPlayer == Opponent(old(currentPlayer)))
    {
      if squareId !in possibleMoves {
        return;
      }
      if squareId in quantumSelection {
        return;
      }
      quantumSelection := quantumSelection + [squareId];
      if |quantumSelection| == 1 {
      } else if |quantumSelection| == 2 {
        var piece := selectedPiece.value;
        ghost var start := board.pieces;
        PlacedWellFormed(board.pieces);
        SplitOfSelected(start, piece, quantumSelection);
        var split := ExecuteQuantumMove(piece, quantumSelection);
        if board.pieces != start {
          CollapseNoop(Vacate(start, piece), board.pieces, old(currentPlayer));
        }
      }
    }

    /** `handleSquareClick` for the clicked square: in quantum mode the
        square goes to the quantum selection; with a piece selected, a
        square among its moves executes the move and anything else clears
        the selection and re-selects; otherwise a piece of the current
        player is selected. */
    method HandleSquareClick(squareId: string)
      requires Valid()
      modifies this, board
      ensures Valid()
      ensures isQuantumMove ==> old(isQuantumMove)
      ensures !old(isQuantumMove) && old(selectedPiece).Some? && squareId in old(possibleMoves) ==>
        && board.pieces == MoveOnBoard(old(board.pieces), old(selectedPiece).value, squareId)
        && currentPlayer == Opponent(old(currentPlayer)) && Cleared()
      ensures !old(isQuantumMove) && !(old(selectedPiece).Some? && squareId in old(possibleMoves)) ==>
        && board.pieces == old(board.pieces) && currentPlayer == old(currentPlayer)
        && quantumSelection == [] && !isQuantumMove
        && (selectedPiece.Some? <==> squareId in board.pieces && board.pieces[squareId].color == currentPlayer)
        && (selectedPiece.Some? ==> selectedPiece == Some(board.pieces[squareId]))
    {
      var pieceOnSquare := GetPieceAt(squareId);
      if pieceOnSquare.Some? {
        StoredClassical(board.pieces, pieceOnSquare.value);
      }
      if isQuantumMove {
        HandleQuantumSelection(squareId);
        return;
      }
      if selectedPiece.Some? {
        if squareId in possibleMoves {
          var piece := selectedPiece.value;
          MovesOfSound(board.pieces, piece, squareId);
          PlacedWellFormed(board.pieces);
          ClassicalMove(board.pieces, piece, squareId);
          ghost var moved := MoveOnBoard(board.pieces, piece, squareId);
          ExecuteMove(piece, squareId);
          CollapseNoop(moved, board.pieces, old(currentPlayer));
        } else {
          ClearSelection();
          SelectOwn(squareId, pieceOnSquare);
        }
      } else {
        SelectOwn(squareId, pieceOnSquare);
      }
    }

    /** The common tail of the click handler: select the piece found on the
        square when it belongs to the current player. */
    method SelectOwn(squareId: string, pieceOnSquare: Option<Piece>)
      requires PlacedAtKeys(board.pieces) && Cleared()
      requires pieceOnSquare.Some? ==> squareId in board.pieces
      requires squareId in board.pieces ==> pieceOnSquare == Some(board.pieces[squareId])
      modifies this
      ensures Valid()
      ensures currentPlayer == old(currentPlayer) && quantumSelection == [] && !isQuantumMove
      ensures selectedPiece.Some? <==> squareId in board.pieces && board.pieces[squareId].color == currentPlayer
      ensures selectedPiece.Some? ==> selectedPiece == Some(board.pieces[squareId])
    {
      if pieceOnSquare.Some? && pieceOnSquare.value.color == currentPlayer {
        SelectPiece(pieceOnSquare.value);
      }
    }
  }
}
