/**
 * The rules as functions: what each generator produces, what executing a move
 * yields and when a side is in check. The methods of module Game compute the
 * same values with the loops of the program and are proved equal to these.
 *
 * Every list below is built "head first" (this square's moves, then the rest),
 * in exactly the order in which the program appends them.
 */
module Rules {
  import opened Board

  // ---------------------------------------------------------------------------
  // Direction tables, in the program's order
  // ---------------------------------------------------------------------------

  const KnightJumps: seq<(int, int)> := [(-2, -1), (-2, 1), (-1, -2), (-1, 2), (1, -2), (1, 2), (2, -1), (2, 1)]
  const BishopRays: seq<(int, int)> := [(-1, -1), (-1, 1), (1, -1), (1, 1)]
  const RookRays: seq<(int, int)> := [(-1, 0), (1, 0), (0, -1), (0, 1)]
  const QueenRays: seq<(int, int)> := [(-1, -1), (-1, 1), (1, -1), (1, 1), (-1, 0), (1, 0), (0, -1), (0, 1)]
  const KingSteps: seq<(int, int)> := [(-1, -1), (-1, 0), (-1, 1), (0, -1), (0, 1), (1, -1), (1, 0), (1, 1)]

  /** A one-square step in one of the eight directions. */
  predicate Unit(d: (int, int))
  {
    -1 <= d.0 <= 1 && -1 <= d.1 <= 1 && d != (0, 0)
  }

  predicate Units(ds: seq<(int, int)>)
  {
    forall d :: d in ds ==> Unit(d)
  }

  /** How many more squares a ray from p in direction d can visit before it leaves the board. */
  function Reach(p: Square, d: (int, int)): nat
    requires OnBoard(p.0, p.1) && Unit(d)
  {
    (if d.0 == 1 then 7 - p.0 else if d.0 == -1 then p.0 else 0) +
    (if d.1 == 1 then 7 - p.1 else if d.1 == -1 then p.1 else 0)
  }

  function Abs(x: int): nat
  {
    if x < 0 then -x else x
  }

  // ---------------------------------------------------------------------------
  // Occupancy tests
  // ---------------------------------------------------------------------------

  /** A square the move generator may land on: empty or held by the opponent of c. */
  predicate Open(b: Board, c: Color, t: Square)
    requires OnBoard(t.0, t.1)
  {
    At(b, t) == Empty || PieceColor(At(b, t)) == Some(Opponent(c))
  }

  /** A square holding a piece of the opponent of c. */
  predicate Enemy(b: Board, c: Color, t: Square)
    requires OnBoard(t.0, t.1)
  {
    At(b, t) != Empty && PieceColor(At(b, t)) == Some(Opponent(c))
  }

  /** Both squares of every move of ms are on the board. */
  predicate WithinBoard(ms: seq<Move>)
  {
    forall m :: m in ms ==> OnBoard(m.0.0, m.0.1) && OnBoard(m.1.0, m.1.1)
  }

  /** Every move of ms starts on s and ends on the board; in move mode (not
      `attacks`) every destination is moreover empty or an opponent's. */
  predicate Lands(b: Board, c: Color, s: Square, ms: seq<Move>, attacks: bool)
  {
    forall m :: m in ms ==>
      m.0 == s && OnBoard(m.1.0, m.1.1) && (!attacks ==> Open(b, c, m.1))
  }

  // ---------------------------------------------------------------------------
  // Per-piece generation. `attacks` selects the attack generator
  // (generate_pseudo_legal_moves); otherwise the candidate phase of
  // generate_moves.
  // ---------------------------------------------------------------------------

  /** A sliding piece on s, continuing a ray beyond p: empty squares are taken and
      passed; the first occupied square ends the ray and is taken when it is an
      opponent's (move mode) or whatever it holds (attack mode). */
  function Ray(b: Board, c: Color, s: Square, p: Square, d: (int, int), attacks: bool): seq<Move>
    requires OnBoard(p.0, p.1) && Unit(d)
    decreases Reach(p, d)
  {
    var t := (p.0 + d.0, p.1 + d.1);
    if !OnBoard(t.0, t.1) then []
    else if At(b, t) == Empty then [(s, t)] + Ray(b, c, s, t, d, attacks)
    else if attacks || PieceColor(At(b, t)) == Some(Opponent(c)) then [(s, t)]
    else []
  }

  /** The rays of a sliding piece on s, one direction after another. */
  function Rays(b: Board, c: Color, s: Square, ds: seq<(int, int)>, attacks: bool): seq<Move>
    requires OnBoard(s.0, s.1) && Units(ds)
  {
    if ds == [] then [] else Ray(b, c, s, s, ds[0], attacks) + Rays(b, c, s, ds[1..], attacks)
  }

  /** A knight or a king on s: one jump per offset, when it stays on the board and
      (in move mode) lands on an open square. */
  function Steps(b: Board, c: Color, s: Square, offsets: seq<(int, int)>, attacks: bool): seq<Move>
  {
    if offsets == [] then []
    else
      var t := (s.0 + offsets[0].0, s.1 + offsets[0].1);
      (if OnBoard(t.0, t.1) && (attacks || Open(b, c, t)) then [(s, t)] else [])
      + Steps(b, c, s, offsets[1..], attacks)
  }

  /** The row direction of c's pawns: White moves up the board (towards row 0). */
  function Forward(c: Color): int
  {
    if c == White then -1 else 1
  }

  predicate PawnHome(c: Color, row: int)
  {
    (c == White && row == 6) || (c == Black && row == 1)
  }

  /** A pawn's diagonal capture towards column offset dc, when an opponent's piece is there. */
  function PawnTake(b: Board, c: Color, s: Square, dc: int): seq<Move>
  {
    var t := (s.0 + Forward(c), s.1 + dc);
    if OnBoard(t.0, t.1) && At(b, t) != Empty && PieceColor(At(b, t)) == Some(Opponent(c)) then [(s, t)] else []
  }

  /** Pawn moves of generate_moves: the single push to an empty square, then the
      double push from the home rank through two empty squares, then the captures. */
  function PawnMoves(b: Board, c: Color, s: Square): seq<Move>
  {
    var row := s.0 + Forward(c);
    var row2 := s.0 + 2 * Forward(c);
    var pushes :=
      if OnBoard(row, s.1) && At(b, (row, s.1)) == Empty then
        [(s, (row, s.1))]
        + (if PawnHome(c, s.0) && OnBoard(row2, s.1) && At(b, (row2, s.1)) == Empty then [(s, (row2, s.1))] else [])
      else [];
    pushes + PawnTake(b, c, s, -1) + PawnTake(b, c, s, 1)
  }

  /** Pawn moves of the attack generator: the single push to an empty square and the
      two captures, and no double push. */
  function PawnAttacks(b: Board, c: Color, s: Square): seq<Move>
  {
    var row := s.0 + Forward(c);
    if OnBoard(row, s.1) then
      (if At(b, (row, s.1)) == Empty then [(s, (row, s.1))] else [])
      + PawnTake(b, c, s, -1) + PawnTake(b, c, s, 1)
    else []
  }

  /** Simplified castling: from the king's home square, with the same-coloured rook in
      the corner and the squares between them empty; nothing else is checked. */
  function Castles(b: Board, c: Color, s: Square): seq<Move>
  {
    if c == White && s == (7, 4) && b[7][4] == Piece(King, White) then
      (if b[7][5] == Empty && b[7][6] == Empty && b[7][7] == Piece(Rook, White)
       then [(s, (7, 6))] else [])
      + (if b[7][3] == Empty && b[7][2] == Empty && b[7][1] == Empty && b[7][0] == Piece(Rook, White)
         then [(s, (7, 2))] else [])
    else if c == Black && s == (0, 4) && b[0][4] == Piece(King, Black) then
      (if b[0][5] == Empty && b[0][6] == Empty && b[0][7] == Piece(Rook, Black)
       then [(s, (0, 6))] else [])
      + (if b[0][3] == Empty && b[0][2] == Empty && b[0][1] == Empty && b[0][0] == Piece(Rook, Black)
         then [(s, (0, 2))] else [])
    else []
  }

  lemma DirectionTablesAreUnits()
    ensures Units(BishopRays) && Units(RookRays) && Units(QueenRays)
  {
  }

  /** The moves of the piece on s, if it belongs to c (dispatch on the piece kind). */
  function SquareMoves(b: Board, c: Color, s: Square, attacks: bool): seq<Move>
    requires OnBoard(s.0, s.1)
  {
    DirectionTablesAreUnits();
    match At(b, s)
    case Empty => []
    case Piece(k, owner) =>
      if owner != c then []
      else
        match k
        case Pawn => if attacks then PawnAttacks(b, c, s) else PawnMoves(b, c, s)
        case Knight => Steps(b, c, s, KnightJumps, attacks)
        case Bishop => Rays(b, c, s, BishopRays, attacks)
        case Rook => Rays(b, c, s, RookRays, attacks)
        case Queen => Rays(b, c, s, QueenRays, attacks)
        case King => Steps(b, c, s, KingSteps, attacks) + (if attacks then [] else Castles(b, c, s))
  }

  /** A square not holding a piece of c contributes nothing. */
  lemma SquareMovesOfOther(b: Board, c: Color, s: Square, attacks: bool)
    requires OnBoard(s.0, s.1) && PieceColor(At(b, s)) != Some(c)
    ensures SquareMoves(b, c, s, attacks) == []
  {
  }

  /** The moves of c's pieces from square (i, j) onwards, in row-major order. */
  function ScanFrom(b: Board, c: Color, i: nat, j: nat, attacks: bool): seq<Move>
    requires i <= 8 && j <= 8
    decreases 8 - i, 8 - j
  {
    if i == 8 then []
    else if j == 8 then ScanFrom(b, c, i + 1, 0, attacks)
    else SquareMoves(b, c, (i, j), attacks) + ScanFrom(b, c, i, j + 1, attacks)
  }

  /** One step of the scan, with whatever was collected before it. */
  lemma ScanFromStep(b: Board, c: Color, i: nat, j: nat, attacks: bool, prefix: seq<Move>)
    requires i < 8 && j < 8
    ensures prefix + SquareMoves(b, c, (i, j), attacks) + ScanFrom(b, c, i, j + 1, attacks)
      == prefix + ScanFrom(b, c, i, j, attacks)
  {
    ConcatAssoc(prefix, SquareMoves(b, c, (i, j), attacks), ScanFrom(b, c, i, j + 1, attacks));
  }

  lemma ConcatAssoc<T>(xs: seq<T>, ys: seq<T>, zs: seq<T>)
    ensures xs + ys + zs == xs + (ys + zs)
  {
  }

  /** The first phase of generate_moves: every move of c before the check filter. */
  function Candidates(b: Board, c: Color): seq<Move>
  {
    ScanFrom(b, c, 0, 0, false)
  }

  /** generate_pseudo_legal_moves: the squares c's pieces attack. */
  function AttackMoves(b: Board, c: Color): seq<Move>
  {
    ScanFrom(b, c, 0, 0, true)
  }

  // ---------------------------------------------------------------------------
  // Executing a move (make_move)
  // ---------------------------------------------------------------------------

  /** Where the rook goes when a king moves two columns: (rook origin, rook destination). */
  function RookJump(s: Square, e: Square): (Square, Square)
  {
    if e.1 > s.1 then ((s.0, 7), (s.0, e.1 - 1)) else ((s.0, 0), (s.0, e.1 + 1))
  }

  /** A king moving exactly two columns: make_move then also moves a rook. */
  predicate IsCastling(piece: Cell, m: Move)
  {
    piece.Piece? && piece.kind == King && Abs(m.1.1 - m.0.1) == 2
  }

  /** make_move: on a copy, the piece goes to the destination and the origin is
      emptied; a pawn reaching the far rank becomes a queen; a two-column king move
      brings the rook over. No legality is checked. */
  function Apply(b: Board, m: Move): Board
    requires OnBoard(m.0.0, m.0.1) && OnBoard(m.1.0, m.1.1)
  {
    var (s, e) := m;
    var piece := At(b, s);
    var moved := Put(Put(b, e, piece), s, Empty);
    var b1 := if piece == Piece(Pawn, White) && e.0 == 0 then Put(moved, e, Piece(Queen, White)) else moved;
    var b2 := if piece == Piece(Pawn, Black) && e.0 == 7 then Put(b1, e, Piece(Queen, Black)) else b1;
    if IsCastling(piece, m) then
      var (rs, re) := RookJump(s, e);
      Put(Put(b2, re, At(b2, rs)), rs, Empty)
    else b2
  }

  // ---------------------------------------------------------------------------
  // Check detection and the legality filter
  // ---------------------------------------------------------------------------

  /** The first square from (i, j) onwards (row-major) holding c's king. */
  function KingFrom(b: Board, c: Color, i: nat, j: nat): (r: Option<Square>)
    requires i <= 8 && j <= 8
    ensures r.Some? ==> OnBoard(r.value.0, r.value.1) && At(b, r.value) == Piece(King, c)
    decreases 8 - i, 8 - j
  {
    if i == 8 then None
    else if j == 8 then KingFrom(b, c, i + 1, 0)
    else if b[i][j] == Piece(King, c) then Some((i, j))
    else KingFrom(b, c, i, j + 1)
  }

  /** Some attack of `attacker` ends on t. */
  predicate Attacked(b: Board, t: Square, attacker: Color)
  {
    exists m :: m in AttackMoves(b, attacker) && m.1 == t
  }

  /** is_in_check: true when c has no king; otherwise whether the opponent attacks
      the first square (row-major) holding c's king. */
  predicate InCheck(b: Board, c: Color)
  {
    match KingFrom(b, c, 0, 0)
    case None => true
    case Some(k) => Attacked(b, k, Opponent(c))
  }

  /** The test generate_moves applies to a candidate: after it (on a copy of the
      board) c is not in check. Both squares are on the board for every candidate. */
  predicate Safe(b: Board, c: Color, m: Move)
  {
    OnBoard(m.0.0, m.0.1) && OnBoard(m.1.0, m.1.1) && !InCheck(Apply(b, m), c)
  }

  /** The moves of ms that pass the test, in their order. */
  function SafeOnly(b: Board, c: Color, ms: seq<Move>): seq<Move>
  {
    if ms == [] then []
    else (if Safe(b, c, ms[0]) then [ms[0]] else []) + SafeOnly(b, c, ms[1..])
  }

  /** generate_moves: the candidates that do not leave c in check, in generation order. */
  function LegalMoves(b: Board, c: Color): seq<Move>
  {
    SafeOnly(b, c, Candidates(b, c))
  }

  datatype Reason = Checkmate | Stalemate

  /** is_game_over's verdict: none while c has a legal move; otherwise checkmate when
      c is in check and stalemate when it is not. */
  function Outcome(b: Board, c: Color): Option<Reason>
  {
    if LegalMoves(b, c) != [] then None
    else if InCheck(b, c) then Some(Checkmate)
    else Some(Stalemate)
  }

  /** One step of the filter, with whatever was kept before it. */
  lemma SafeOnlyStep(b: Board, c: Color, ms: seq<Move>, k: nat, prefix: seq<Move>)
    requires k < |ms|
    ensures prefix + (if Safe(b, c, ms[k]) then [ms[k]] else []) + SafeOnly(b, c, ms[k + 1..])
      == prefix + SafeOnly(b, c, ms[k..])
  {
    assert ms[k..][0] == ms[k];
    assert ms[k..][1..] == ms[k + 1..];
    ConcatAssoc(prefix, if Safe(b, c, ms[k]) then [ms[k]] else [], SafeOnly(b, c, ms[k + 1..]));
  }

  /** The filter keeps exactly the moves of ms that pass the test. */
  lemma {:induction false} SafeOnlyMember(b: Board, c: Color, ms: seq<Move>, m: Move)
    ensures m in SafeOnly(b, c, ms) <==> m in ms && Safe(b, c, m)
  {
    if ms != [] {
      assert ms == [ms[0]] + ms[1..];
      SafeOnlyMember(b, c, ms[1..], m);
    }
  }

  /** c has no legal move exactly when no candidate passes the test. */
  lemma NoLegalMoves(b: Board, c: Color)
    ensures LegalMoves(b, c) == [] <==> forall m :: m in Candidates(b, c) ==> !Safe(b, c, m)
  {
    var ms := Candidates(b, c);
    forall m | m in ms
      ensures m in LegalMoves(b, c) <==> Safe(b, c, m)
    {
      SafeOnlyMember(b, c, ms, m);
    }
    if LegalMoves(b, c) != [] {
      SafeOnlyMember(b, c, ms, LegalMoves(b, c)[0]);
    }
  }

  // ---------------------------------------------------------------------------
  // Where generated moves start and land
  // ---------------------------------------------------------------------------

  lemma {:induction false} RayLands(b: Board, c: Color, s: Square, p: Square, d: (int, int), attacks: bool)
    requires OnBoard(p.0, p.1) && Unit(d)
    ensures Lands(b, c, s, Ray(b, c, s, p, d, attacks), attacks)
    decreases Reach(p, d)
  {
    var t := (p.0 + d.0, p.1 + d.1);
    if OnBoard(t.0, t.1) && At(b, t) == Empty {
      RayLands(b, c, s, t, d, attacks);
    }
  }

  lemma {:induction false} RaysLands(b: Board, c: Color, s: Square, ds: seq<(int, int)>, attacks: bool)
    requires OnBoard(s.0, s.1) && Units(ds)
    ensures Lands(b, c, s, Rays(b, c, s, ds, attacks), attacks)
  {
    if ds != [] {
      RayLands(b, c, s, s, ds[0], attacks);
      RaysLands(b, c, s, ds[1..], attacks);
    }
  }

  lemma {:induction false} StepsLands(b: Board, c: Color, s: Square, offsets: seq<(int, int)>, attacks: bool)
    ensures Lands(b, c, s, Steps(b, c, s, offsets, attacks), attacks)
  {
    if offsets != [] {
      StepsLands(b, c, s, offsets[1..], attacks);
    }
  }

  lemma PawnLands(b: Board, c: Color, s: Square)
    ensures Lands(b, c, s, PawnMoves(b, c, s), false)
    ensures Lands(b, c, s, PawnAttacks(b, c, s), true)
  {
  }

  lemma CastlesLand(b: Board, c: Color, s: Square)
    ensures Lands(b, c, s, Castles(b, c, s), false)
    ensures forall m :: m in Castles(b, c, s) ==> OnBoard(m.1.0, m.1.1) && At(b, m.1) == Empty
  {
  }

  lemma LandsConcat(b: Board, c: Color, s: Square, xs: seq<Move>, ys: seq<Move>, attacks: bool)
    requires Lands(b, c, s, xs, attacks) && Lands(b, c, s, ys, attacks)
    ensures Lands(b, c, s, xs + ys, attacks)
  {
  }

  /** The moves generated for the square s start on s, land on the board (on an open
      square in move mode), and exist only when s holds a piece of c. */
  lemma SquareMovesLands(b: Board, c: Color, s: Square, attacks: bool)
    requires OnBoard(s.0, s.1)
    ensures Lands(b, c, s, SquareMoves(b, c, s, attacks), attacks)
    ensures SquareMoves(b, c, s, attacks) != [] ==> PieceColor(At(b, s)) == Some(c)
  {
    DirectionTablesAreUnits();
    match At(b, s)
    case Empty =>
    case Piece(k, owner) =>
      if owner == c {
        match k
        case Pawn => PawnLands(b, c, s);
        case Knight => StepsLands(b, c, s, KnightJumps, attacks);
        case Bishop => RaysLands(b, c, s, BishopRays, attacks);
        case Rook => RaysLands(b, c, s, RookRays, attacks);
        case Queen => RaysLands(b, c, s, QueenRays, attacks);
        case King =>
          StepsLands(b, c, s, KingSteps, attacks);
          CastlesLand(b, c, s);
          LandsConcat(b, c, s, Steps(b, c, s, KingSteps, attacks), if attacks then [] else Castles(b, c, s), attacks);
      }
  }

  /** Every move of the scan from (i, j) starts, at (i, j) or later, on a piece of c
      and lands on the board; in move mode on an empty or opponent-held square. */
  lemma {:induction false} ScanFromLands(b: Board, c: Color, i: nat, j: nat, attacks: bool)
    requires i <= 8 && j <= 8
    ensures WithinBoard(ScanFrom(b, c, i, j, attacks))
    ensures forall m :: m in ScanFrom(b, c, i, j, attacks) ==>
      OnBoard(m.0.0, m.0.1) && OnBoard(m.1.0, m.1.1) && (i < m.0.0 || (i == m.0.0 && j <= m.0.1))
      && PieceColor(At(b, m.0)) == Some(c) && (!attacks ==> Open(b, c, m.1))
    decreases 8 - i, 8 - j
  {
    if i < 8 {
      if j == 8 {
        ScanFromLands(b, c, i + 1, 0, attacks);
      } else {
        SquareMovesLands(b, c, (i, j), attacks);
        ScanFromLands(b, c, i, j + 1, attacks);
      }
    }
  }
}
