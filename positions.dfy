/**
 * Concrete positions, each described cell by cell: the starting position, where
 * White has exactly twenty legal moves (sixteen pawn moves and four knight moves),
 * a checkmate and a stalemate. Together they show that every verdict of
 * is_game_over can occur. The general facts they rest on come first: which squares
 * a ray, a set of rays or a set of jumps reaches.
 */
module Positions {
  import opened Board
  import opened Rules
  import opened RulesFacts

  // ---------------------------------------------------------------------------
  // Where rays and jumps go
  // ---------------------------------------------------------------------------

  /** t lies strictly beyond p in direction d: on the same rank, file or diagonal,
      on the side d points to. */
  predicate Beyond(p: Square, d: (int, int), t: Square)
  {
    (if d.0 == 0 then t.0 == p.0 else if d.0 > 0 then t.0 > p.0 else t.0 < p.0)
    && (if d.1 == 0 then t.1 == p.1 else if d.1 > 0 then t.1 > p.1 else t.1 < p.1)
    && (d.0 != 0 && d.1 != 0 ==> Abs(t.0 - p.0) == Abs(t.1 - p.1))
  }

  /** Every square a ray continuing beyond p reaches lies beyond p in its direction. */
  lemma {:induction false} RayBeyond(b: Board, c: Color, s: Square, p: Square, d: (int, int), attacks: bool, m: Move)
    requires OnBoard(p.0, p.1) && Unit(d) && m in Ray(b, c, s, p, d, attacks)
    ensures m.0 == s && Beyond(p, d, m.1)
    decreases Reach(p, d)
  {
    var t := (p.0 + d.0, p.1 + d.1);
    if m != (s, t) {
      RayBeyond(b, c, s, t, d, attacks, m);
    }
  }

  /** Every move among the rays of a piece is on one of them. */
  lemma {:induction false} RaysSound(b: Board, c: Color, s: Square, ds: seq<(int, int)>, attacks: bool, m: Move)
    requires OnBoard(s.0, s.1) && Units(ds) && m in Rays(b, c, s, ds, attacks)
    ensures exists d :: d in ds && m in Ray(b, c, s, s, d, attacks)
  {
    if m in Ray(b, c, s, s, ds[0], attacks) {
      assert ds[0] in ds;
    } else {
      RaysSound(b, c, s, ds[1..], attacks, m);
      var d :| d in ds[1..] && m in Ray(b, c, s, s, d, attacks);
      assert d in ds;
    }
  }

  /** Every move on one of the rays is among the rays of the piece. */
  lemma {:induction false} RayInRays(b: Board, c: Color, s: Square, ds: seq<(int, int)>, attacks: bool, d: (int, int), m: Move)
    requires OnBoard(s.0, s.1) && Units(ds) && d in ds && m in Ray(b, c, s, s, d, attacks)
    ensures m in Rays(b, c, s, ds, attacks)
  {
    if d != ds[0] {
      assert d in ds[1..];
      RayInRays(b, c, s, ds[1..], attacks, d, m);
    }
  }

  /** A jump by one of the offsets is generated when it stays on the board and, in
      move mode, lands on an empty or opponent-held square. */
  lemma {:induction false} StepsComplete(b: Board, c: Color, s: Square, offsets: seq<(int, int)>, attacks: bool, d: (int, int))
    requires d in offsets && OnBoard(s.0 + d.0, s.1 + d.1)
    requires attacks || Open(b, c, (s.0 + d.0, s.1 + d.1))
    ensures (s, (s.0 + d.0, s.1 + d.1)) in Steps(b, c, s, offsets, attacks)
  {
    if d != offsets[0] {
      assert d in offsets[1..];
      StepsComplete(b, c, s, offsets[1..], attacks, d);
    }
  }

  /** t is off the board or holds a piece of c. */
  predicate Blocked(b: Board, c: Color, t: Square)
  {
    !OnBoard(t.0, t.1) || PieceColor(At(b, t)) == Some(c)
  }

  /** A sliding piece whose every first square is blocked has no move. */
  lemma {:induction false} BlockedRays(b: Board, c: Color, s: Square, ds: seq<(int, int)>)
    requires OnBoard(s.0, s.1) && Units(ds)
    requires forall d :: d in ds ==> Blocked(b, c, (s.0 + d.0, s.1 + d.1))
    ensures Rays(b, c, s, ds, false) == []
  {
    if ds != [] {
      assert ds[0] in ds;
      BlockedRays(b, c, s, ds[1..]);
    }
  }

  /** A knight or king whose every jump is blocked has no move. */
  lemma {:induction false} BlockedSteps(b: Board, c: Color, s: Square, offsets: seq<(int, int)>)
    requires forall d :: d in offsets ==> Blocked(b, c, (s.0 + d.0, s.1 + d.1))
    ensures Steps(b, c, s, offsets, false) == []
  {
    if offsets != [] {
      assert offsets[0] in offsets;
      BlockedSteps(b, c, s, offsets[1..]);
    }
  }

  /** A lone king of c away from its home square moves one step, to an open square. */
  lemma LoneKingMoves(b: Board, c: Color, k: Square, m: Move)
    requires OnBoard(k.0, k.1) && At(b, k) == Piece(King, c) && k != KingHome(c)
    requires forall r, col :: OnBoard(r, col) && (r, col) != k ==> PieceColor(b[r][col]) != Some(c)
    requires m in Candidates(b, c)
    ensures m.0 == k && m.1 != k && OnBoard(m.1.0, m.1.1)
    ensures k.0 - 1 <= m.1.0 <= k.0 + 1 && k.1 - 1 <= m.1.1 <= k.1 + 1
  {
    CandidateMember(b, c, m);
    if m.0 != k {
      SquareMovesOfOther(b, c, m.0, false);
      assert false;
    }
    KingMoves(b, c, k, false);
    CastlesShape(b, c, k, m);
    KingStepNear(b, c, k, false, m);
  }

  /** The squares of row i from column j on that hold no piece of c contribute no move. */
  lemma {:induction false} RowVacant(b: Board, c: Color, i: nat, j: nat, attacks: bool)
    requires i < 8 && j <= 8
    requires forall col :: j <= col < 8 ==> PieceColor(b[i][col]) != Some(c)
    ensures ScanFrom(b, c, i, j, attacks) == ScanFrom(b, c, i + 1, 0, attacks)
    decreases 8 - j
  {
    if j < 8 {
      SquareMovesOfOther(b, c, (i, j), attacks);
      assert ScanFrom(b, c, i, j, attacks) == [] + ScanFrom(b, c, i, j + 1, attacks);
      RowVacant(b, c, i, j + 1, attacks);
    }
  }

  /** Rows i to k - 1 that hold no piece of c contribute no move. */
  lemma {:induction false} RowsVacant(b: Board, c: Color, i: nat, k: nat, attacks: bool)
    requires i <= k <= 8
    requires forall r, col :: i <= r < k && 0 <= col < 8 ==> PieceColor(b[r][col]) != Some(c)
    ensures ScanFrom(b, c, i, 0, attacks) == ScanFrom(b, c, k, 0, attacks)
    decreases k - i
  {
    if i < k {
      RowVacant(b, c, i, 0, attacks);
      RowsVacant(b, c, i + 1, k, attacks);
    }
  }

  /** A king of c all of whose steps are blocked and which cannot castle has no move. */
  lemma BoxedKing(b: Board, c: Color, s: Square)
    requires OnBoard(s.0, s.1) && At(b, s) == Piece(King, c)
    requires forall d :: d in KingSteps ==> Blocked(b, c, (s.0 + d.0, s.1 + d.1))
    requires Castles(b, c, s) == []
    ensures SquareMoves(b, c, s, false) == []
  {
    BlockedSteps(b, c, s, KingSteps);
    KingMoves(b, c, s, false);
  }

  /** A king step moves by one square in some direction. */
  lemma KingStepNear(b: Board, c: Color, s: Square, attacks: bool, m: Move)
    requires m in Steps(b, c, s, KingSteps, attacks)
    ensures m.0 == s && m.1 != s && OnBoard(m.1.0, m.1.1)
    ensures s.0 - 1 <= m.1.0 <= s.0 + 1 && s.1 - 1 <= m.1.1 <= s.1 + 1
  {
    StepsLands(b, c, s, KingSteps, attacks);
    StepsShape(b, c, s, KingSteps, attacks, m);
    var d :| d in KingSteps && m.1 == (s.0 + d.0, s.1 + d.1);
    KingStepIsUnit(d);
  }

  lemma KingStepIsUnit(d: (int, int))
    requires d in KingSteps
    ensures Unit(d)
  {
  }

  // ---------------------------------------------------------------------------
  // The starting position
  // ---------------------------------------------------------------------------

  ghost predicate IsStart(b: Board)
  {
    forall r, col :: OnBoard(r, col) ==> b[r][col] == StartCell(r, col)
  }

  lemma InitBoardIsStart()
    ensures IsStart(InitBoard())
  {
  }

  /** The pawn moves of White's first turn from column j on: one and two squares
      forward, file by file. */
  function PawnOpenings(j: nat): (ms: seq<Move>)
    requires j <= 8
    ensures |ms| == 2 * (8 - j)
    decreases 8 - j
  {
    if j == 8 then [] else [((6, j), (5, j)), ((6, j), (4, j))] + PawnOpenings(j + 1)
  }

  /** Each pawn opening from column j on moves a pawn of row 6, in column j or further
      right, one or two squares straight ahead. */
  lemma {:induction false} PawnOpeningShape(j: nat, i: nat)
    requires j <= 8 && i < |PawnOpenings(j)|
    ensures var m := PawnOpenings(j)[i];
      m.0.0 == 6 && j <= m.0.1 < 8 && m.1.1 == m.0.1 && (m.1.0 == 5 || m.1.0 == 4)
    decreases 8 - j
  {
    if i >= 2 {
      PawnOpeningShape(j + 1, i - 2);
    }
  }

  /** The knight moves of White's first turn. */
  const KnightOpenings: seq<Move> := [((7, 1), (5, 0)), ((7, 1), (5, 2)), ((7, 6), (5, 5)), ((7, 6), (5, 7))]

  /** A White pawn on its home square with nothing in front of it. */
  lemma StartPawn(b: Board, j: nat)
    requires IsStart(b) && j < 8
    ensures SquareMoves(b, White, (6, j), false) == [((6, j), (5, j)), ((6, j), (4, j))]
  {
    assert At(b, (6, j)) == Piece(Pawn, White);
    assert PawnTake(b, White, (6, j), -1) == [];
    assert PawnTake(b, White, (6, j), 1) == [];
  }

  lemma {:induction false} StartPawnRow(b: Board, j: nat)
    requires IsStart(b) && j <= 8
    ensures ScanFrom(b, White, 6, j, false) == PawnOpenings(j) + ScanFrom(b, White, 7, 0, false)
    decreases 8 - j
  {
    if j < 8 {
      StartPawn(b, j);
      StartPawnRow(b, j + 1);
      ConcatAssoc(SquareMoves(b, White, (6, j), false), PawnOpenings(j + 1), ScanFrom(b, White, 7, 0, false));
    }
  }

  /** A square of White's two home ranks holds a White piece at the start. */
  lemma WhiteHomeBlocked(b: Board, t: Square)
    requires IsStart(b) && OnBoard(t.0, t.1) && t.0 >= 6
    ensures Blocked(b, White, t)
  {
    assert b[t.0][t.1] == StartCell(t.0, t.1);
  }

  /** The directions of a sliding piece. */
  function SliderRays(k: Kind): (ds: seq<(int, int)>)
    ensures Units(ds)
  {
    DirectionTablesAreUnits();
    if k == Bishop then BishopRays else if k == Rook then RookRays else QueenRays
  }

  /** The moves of a bishop, rook or queen of c are its rays. */
  lemma SliderMoves(b: Board, c: Color, s: Square, k: Kind, attacks: bool)
    requires OnBoard(s.0, s.1) && At(b, s) == Piece(k, c) && (k == Bishop || k == Rook || k == Queen)
    ensures SquareMoves(b, c, s, attacks) == Rays(b, c, s, SliderRays(k), attacks)
  {
  }

  /** The moves of a knight of c are its jumps. */
  lemma KnightMoves(b: Board, c: Color, s: Square, attacks: bool)
    requires OnBoard(s.0, s.1) && At(b, s) == Piece(Knight, c)
    ensures SquareMoves(b, c, s, attacks) == Steps(b, c, s, KnightJumps, attacks)
  {
  }

  /** A bishop, rook or queen whose every first square is blocked has no move. */
  lemma BoxedSlider(b: Board, c: Color, s: Square, k: Kind)
    requires OnBoard(s.0, s.1) && At(b, s) == Piece(k, c) && (k == Bishop || k == Rook || k == Queen)
    requires forall d :: d in SliderRays(k) ==> Blocked(b, c, (s.0 + d.0, s.1 + d.1))
    ensures SquareMoves(b, c, s, false) == []
  {
    SliderMoves(b, c, s, k, false);
    BlockedRays(b, c, s, SliderRays(k));
  }

  /** A White knight on its home square jumps to the two squares in front of the pawns. */
  lemma HomeKnight(b: Board, col: int)
    requires (col == 1 || col == 6) && b[7][col] == Piece(Knight, White)
    requires b[5][col - 1] == Empty && b[5][col + 1] == Empty
    requires forall d :: d in KnightJumps[2..] ==> Blocked(b, White, (7 + d.0, col + d.1))
    ensures SquareMoves(b, White, (7, col), false) == [((7, col), (5, col - 1)), ((7, col), (5, col + 1))]
  {
    KnightMoves(b, White, (7, col), false);
    HomeKnightJumps(b, col);
  }

  lemma HomeKnightJumps(b: Board, col: int)
    requires (col == 1 || col == 6)
    requires b[5][col - 1] == Empty && b[5][col + 1] == Empty
    requires forall d :: d in KnightJumps[2..] ==> Blocked(b, White, (7 + d.0, col + d.1))
    ensures Steps(b, White, (7, col), KnightJumps, false) == [((7, col), (5, col - 1)), ((7, col), (5, col + 1))]
  {
    var s := (7, col);
    var front := [(-2, -1), (-2, 1)];
    assert KnightJumps == front + KnightJumps[2..];
    StepsAppend(b, White, s, front, KnightJumps[2..], false);
    BlockedSteps(b, White, s, KnightJumps[2..]);
    ForwardJumps(b, col);
  }

  /** The two jumps towards the centre of the board land on empty squares. */
  lemma ForwardJumps(b: Board, col: int)
    requires (col == 1 || col == 6)
    requires b[5][col - 1] == Empty && b[5][col + 1] == Empty
    ensures Steps(b, White, (7, col), [(-2, -1), (-2, 1)], false) == [((7, col), (5, col - 1)), ((7, col), (5, col + 1))]
  {
    var s := (7, col);
    assert [(-2, -1), (-2, 1)][1..] == [(-2, 1)];
    assert Steps(b, White, s, [(-2, 1)], false) == [(s, (5, col + 1))];
  }

  /** The jumps of a list of offsets followed by another are those of the first
      list followed by those of the second. */
  lemma {:induction false} StepsAppend(b: Board, c: Color, s: Square, xs: seq<(int, int)>, ys: seq<(int, int)>, attacks: bool)
    ensures Steps(b, c, s, xs + ys, attacks) == Steps(b, c, s, xs, attacks) + Steps(b, c, s, ys, attacks)
  {
    if xs != [] {
      assert (xs + ys)[0] == xs[0];
      assert (xs + ys)[1..] == xs[1..] + ys;
      StepsAppend(b, c, s, xs[1..], ys, attacks);
      var t := (s.0 + xs[0].0, s.1 + xs[0].1);
      ConcatAssoc(if OnBoard(t.0, t.1) && (attacks || Open(b, c, t)) then [(s, t)] else [],
        Steps(b, c, s, xs[1..], attacks), Steps(b, c, s, ys, attacks));
    } else {
      assert xs + ys == ys;
    }
  }

  lemma StartKnight(b: Board, col: int)
    requires IsStart(b) && (col == 1 || col == 6)
    ensures SquareMoves(b, White, (7, col), false) == [((7, col), (5, col - 1)), ((7, col), (5, col + 1))]
  {
    assert b[7][col] == StartCell(7, col);
    assert b[5][col - 1] == StartCell(5, col - 1);
    assert b[5][col + 1] == StartCell(5, col + 1);
    if col == 1 {
      WhiteHomeBlocked(b, (6, 3));
    } else {
      WhiteHomeBlocked(b, (6, 4));
    }
    HomeKnight(b, col);
  }

  /** The pieces of White's back rank that are boxed in by their own side. */
  lemma StartBoxedRook(b: Board, col: int)
    requires IsStart(b) && (col == 0 || col == 7)
    ensures SquareMoves(b, White, (7, col), false) == []
  {
    assert b[7][col] == StartCell(7, col);
    WhiteHomeBlocked(b, (6, col));
    WhiteHomeBlocked(b, if col == 0 then (7, 1) else (7, 6));
    BoxedSlider(b, White, (7, col), Rook);
  }

  lemma StartBoxedBishop(b: Board, col: int)
    requires IsStart(b) && (col == 2 || col == 5)
    ensures SquareMoves(b, White, (7, col), false) == []
  {
    assert b[7][col] == StartCell(7, col);
    WhiteHomeBlocked(b, (6, col - 1));
    WhiteHomeBlocked(b, (6, col + 1));
    BoxedSlider(b, White, (7, col), Bishop);
  }

  lemma StartBoxedQueen(b: Board)
    requires IsStart(b)
    ensures SquareMoves(b, White, (7, 3), false) == []
  {
    assert b[7][3] == StartCell(7, 3);
    WhiteHomeBlocked(b, (6, 2));
    WhiteHomeBlocked(b, (6, 3));
    WhiteHomeBlocked(b, (6, 4));
    WhiteHomeBlocked(b, (7, 2));
    WhiteHomeBlocked(b, (7, 4));
    BoxedSlider(b, White, (7, 3), Queen);
  }

  /** The king has no step, and no room to castle on either side. */
  lemma StartBoxedKing(b: Board)
    requires IsStart(b)
    ensures SquareMoves(b, White, (7, 4), false) == []
  {
    assert b[7][4] == StartCell(7, 4);
    WhiteHomeBlocked(b, (6, 3));
    WhiteHomeBlocked(b, (6, 4));
    WhiteHomeBlocked(b, (6, 5));
    WhiteHomeBlocked(b, (7, 3));
    WhiteHomeBlocked(b, (7, 5));
    NoRoomToCastle(b);
    BoxedKing(b, White, (7, 4));
  }

  lemma NoRoomToCastle(b: Board)
    requires b[7][3] != Empty && b[7][5] != Empty
    ensures Castles(b, White, (7, 4)) == []
  {
  }

  /** The scan of row 7, given the moves of each of its squares. */
  lemma BackRankScan(b: Board)
    requires forall col :: 0 <= col < 8 && col != 1 && col != 6 ==> SquareMoves(b, White, (7, col), false) == []
    requires SquareMoves(b, White, (7, 1), false) == KnightOpenings[..2]
    requires SquareMoves(b, White, (7, 6), false) == KnightOpenings[2..]
    ensures ScanFrom(b, White, 7, 0, false) == KnightOpenings
  {
    assert ScanFrom(b, White, 7, 8, false) == [];
    assert ScanFrom(b, White, 7, 7, false) == [];
    assert ScanFrom(b, White, 7, 6, false) == KnightOpenings[2..];
    assert ScanFrom(b, White, 7, 5, false) == KnightOpenings[2..];
    assert ScanFrom(b, White, 7, 4, false) == KnightOpenings[2..];
    assert ScanFrom(b, White, 7, 3, false) == KnightOpenings[2..];
    assert ScanFrom(b, White, 7, 2, false) == KnightOpenings[2..];
    assert ScanFrom(b, White, 7, 1, false) == KnightOpenings[..2] + KnightOpenings[2..];
  }

  /** Of the back rank only the knights can move. */
  lemma StartBackRank(b: Board)
    requires IsStart(b)
    ensures ScanFrom(b, White, 7, 0, false) == KnightOpenings
  {
    StartBoxedRook(b, 0);
    StartBoxedRook(b, 7);
    StartBoxedBishop(b, 2);
    StartBoxedBishop(b, 5);
    StartBoxedQueen(b);
    StartBoxedKing(b);
    StartKnight(b, 1);
    StartKnight(b, 6);
    BackRankScan(b);
  }

  /** White's candidates at the start: the pawn moves file by file, then the knights'. */
  lemma StartCandidates(b: Board)
    requires IsStart(b)
    ensures Candidates(b, White) == PawnOpenings(0) + KnightOpenings
  {
    assert forall r, col :: 0 <= r < 6 && 0 <= col < 8 ==> PieceColor(b[r][col]) != Some(White) by {
      forall r, col | 0 <= r < 6 && 0 <= col < 8
        ensures PieceColor(b[r][col]) != Some(White)
      {
        assert b[r][col] == StartCell(r, col);
      }
    }
    RowsVacant(b, White, 0, 6, false);
    StartPawnRow(b, 0);
    StartBackRank(b);
  }

  /** Black's two home ranks as at the start, and no Black piece anywhere else. */
  ghost predicate BlackAtHome(b: Board)
  {
    (forall col :: 0 <= col < 8 ==> b[0][col] == Piece(BackRank[col], Black) && b[1][col] == Piece(Pawn, Black))
    && forall r, col :: 2 <= r < 8 && 0 <= col < 8 ==> PieceColor(b[r][col]) != Some(Black)
  }

  /** A Black piece of the back rank, hemmed in by its pawns, sends no ray past them. */
  lemma BackRankRay(b: Board, s: Square, d: (int, int), m: Move)
    requires BlackAtHome(b) && s.0 == 0 && OnBoard(s.0, s.1) && Unit(d)
    requires m in Ray(b, Black, s, s, d, true)
    ensures m.1.0 <= 1
  {
    var t := (s.0 + d.0, s.1 + d.1);
    if !OnBoard(t.0, t.1) {
      assert false;
    }
    if d.0 == 0 {
      RayBeyond(b, Black, s, s, d, true, m);
    } else {
      assert b[1][t.1] == Piece(Pawn, Black);
    }
  }

  lemma BackRankRays(b: Board, s: Square, ds: seq<(int, int)>, m: Move)
    requires BlackAtHome(b) && s.0 == 0 && OnBoard(s.0, s.1) && Units(ds)
    requires m in Rays(b, Black, s, ds, true)
    ensures m.1.0 <= 1
  {
    RaysSound(b, Black, s, ds, true, m);
    var d :| d in ds && m in Ray(b, Black, s, s, d, true);
    BackRankRay(b, s, d, m);
  }

  /** A jump from row 0 by offsets of at most two rows ends on row 2 at the furthest. */
  lemma BackRankJump(b: Board, s: Square, offsets: seq<(int, int)>, m: Move)
    requires s.0 == 0 && (forall d :: d in offsets ==> d.0 <= 2)
    requires m in Steps(b, Black, s, offsets, true)
    ensures m.1.0 <= 2
  {
    StepsShape(b, Black, s, offsets, true, m);
  }

  /** An attack from a square of Black's home ranks ends on row 2 at the furthest. */
  lemma BlackAttackNear(b: Board, s: Square, m: Move)
    requires BlackAtHome(b) && OnBoard(s.0, s.1) && m in SquareMoves(b, Black, s, true)
    ensures m.1.0 <= 2
  {
    DirectionTablesAreUnits();
    if s.0 >= 2 {
      SquareMovesOfOther(b, Black, s, true);
      assert false;
    }
    var x := At(b, s);
    if s.0 == 1 {
      assert x == Piece(Pawn, Black);
    } else {
      assert x == Piece(BackRank[s.1], Black);
      match x.kind
      case Pawn =>
      case Knight => BackRankJump(b, s, KnightJumps, m);
      case Bishop => BackRankRays(b, s, BishopRays, m);
      case Rook => BackRankRays(b, s, RookRays, m);
      case Queen => BackRankRays(b, s, QueenRays, m);
      case King => BackRankJump(b, s, KingSteps, m);
    }
  }

  /** While Black's pieces are all at home, no Black attack goes past row 2. */
  lemma BlackAttacksNear(b: Board)
    requires BlackAtHome(b)
    ensures forall m :: m in AttackMoves(b, Black) ==> m.1.0 <= 2
  {
    forall m | m in AttackMoves(b, Black)
      ensures m.1.0 <= 2
    {
      CandidateMember(b, Black, m);
      BlackAttackNear(b, m.0, m);
    }
  }

  /** A White move from the two home ranks, not by the king, to row 4 or 5. */
  predicate QuietOpening(m: Move)
  {
    OnBoard(m.0.0, m.0.1) && OnBoard(m.1.0, m.1.1) && m.0.0 >= 6 && m.0 != (7, 4) && 4 <= m.1.0 <= 5
  }

  /** The board after a quiet opening: Black is still all at home and White's king is
      still on (7, 4). */
  lemma QuietMoveBoard(b: Board, m: Move)
    requires IsStart(b) && QuietOpening(m)
    ensures BlackAtHome(Apply(b, m)) && FirstKing(Apply(b, m), White, (7, 4))
  {
    var b' := Apply(b, m);
    ApplyOrdinary(b, m);
    assert Promote(At(b, m.0), m.1.0) == At(b, m.0);
  }

  /** Such a move leaves White out of check: no Black attack reaches row 7. */
  lemma QuietMoveSafe(b: Board, m: Move)
    requires IsStart(b) && QuietOpening(m)
    ensures Safe(b, White, m)
  {
    var b' := Apply(b, m);
    QuietMoveBoard(b, m);
    BlackAttacksNear(b');
    InCheckMeaning(b', White, (7, 4));
  }

  /** The moves of ms that pass keep, in their order. */
  function Filter(keep: Move -> bool, ms: seq<Move>): (r: seq<Move>)
    ensures |r| <= |ms|
  {
    if ms == [] then [] else (if keep(ms[0]) then [ms[0]] else []) + Filter(keep, ms[1..])
  }

  /** Filtering keeps a list whose every move passes the test as it is. */
  lemma {:induction false} FilterKeepsAll(keep: Move -> bool, ms: seq<Move>)
    requires forall i :: 0 <= i < |ms| ==> keep(ms[i])
    ensures Filter(keep, ms) == ms
  {
    if ms != [] {
      FilterKeepsAll(keep, ms[1..]);
      assert ms == [ms[0]] + ms[1..];
    }
  }

  /** The legality filter is Filter with the test Safe. */
  lemma {:induction false} SafeOnlyIsFilter(b: Board, c: Color, ms: seq<Move>)
    ensures SafeOnly(b, c, ms) == Filter(m => Safe(b, c, m), ms)
  {
    if ms != [] {
      SafeOnlyIsFilter(b, c, ms[1..]);
    }
  }

  lemma SafeOnlyKeepsAll(b: Board, c: Color, ms: seq<Move>)
    requires forall i :: 0 <= i < |ms| ==> Safe(b, c, ms[i])
    ensures SafeOnly(b, c, ms) == ms
  {
    SafeOnlyIsFilter(b, c, ms);
    FilterKeepsAll(m => Safe(b, c, m), ms);
  }

  /** Every pawn opening from column j on is a quiet opening. */
  lemma PawnOpeningsQuiet(j: nat)
    requires j <= 8
    ensures forall i :: 0 <= i < |PawnOpenings(j)| ==> QuietOpening(PawnOpenings(j)[i])
  {
    forall i | 0 <= i < |PawnOpenings(j)|
      ensures QuietOpening(PawnOpenings(j)[i])
    {
      PawnOpeningShape(j, i);
    }
  }

  lemma KnightOpeningsQuiet()
    ensures forall i :: 0 <= i < |KnightOpenings| ==> QuietOpening(KnightOpenings[i])
  {
  }

  /** Two lists of quiet openings make one. */
  lemma QuietAppend(xs: seq<Move>, ys: seq<Move>)
    requires forall i :: 0 <= i < |xs| ==> QuietOpening(xs[i])
    requires forall i :: 0 <= i < |ys| ==> QuietOpening(ys[i])
    ensures forall i :: 0 <= i < |xs + ys| ==> QuietOpening((xs + ys)[i])
  {
    forall i | 0 <= i < |xs + ys|
      ensures QuietOpening((xs + ys)[i])
    {
      if i >= |xs| {
        assert (xs + ys)[i] == ys[i - |xs|];
      }
    }
  }

  /** At the start, a list of candidates made of quiet openings is the list of legal
      moves. */
  lemma QuietCandidatesLegal(b: Board, ms: seq<Move>)
    requires IsStart(b) && Candidates(b, White) == ms
    requires forall i :: 0 <= i < |ms| ==> QuietOpening(ms[i])
    ensures LegalMoves(b, White) == ms
  {
    forall i | 0 <= i < |ms|
      ensures Safe(b, White, ms[i])
    {
      QuietMoveSafe(b, ms[i]);
    }
    SafeOnlyKeepsAll(b, White, ms);
  }

  lemma StartLegalMoves(b: Board)
    requires IsStart(b)
    ensures LegalMoves(b, White) == PawnOpenings(0) + KnightOpenings
  {
    StartCandidates(b);
    PawnOpeningsQuiet(0);
    KnightOpeningsQuiet();
    QuietAppend(PawnOpenings(0), KnightOpenings);
    QuietCandidatesLegal(b, PawnOpenings(0) + KnightOpenings);
  }

  /** A side with a legal move has not lost or drawn. */
  lemma NotOver(b: Board, c: Color)
    requires LegalMoves(b, c) != []
    ensures Outcome(b, c) == None
  {
  }

  /** At the start White has exactly twenty legal moves, in the order generate_moves
      lists them, and the game is not over. */
  lemma StartPosition(b: Board)
    requires IsStart(b)
    ensures LegalMoves(b, White) == PawnOpenings(0) + KnightOpenings
    ensures |LegalMoves(b, White)| == 20
    ensures Outcome(b, White) == None
  {
    StartLegalMoves(b);
    NotOver(b, White);
  }

  /** The same for the board init_board builds: twenty legal moves for White. */
  lemma InitialPosition()
    ensures |LegalMoves(InitBoard(), White)| == 20
    ensures LegalMoves(InitBoard(), White) == PawnOpenings(0) + KnightOpenings
    ensures Outcome(InitBoard(), White) == None
  {
    InitBoardIsStart();
    StartPosition(InitBoard());
  }

  // ---------------------------------------------------------------------------
  // Checkmate and stalemate of a lone Black king on (0, 0)
  // ---------------------------------------------------------------------------

  /** A White queen on q attacks the occupied square next to it in direction d. */
  lemma QueenTouches(b: Board, q: Square, d: (int, int))
    requires OnBoard(q.0, q.1) && At(b, q) == Piece(Queen, White) && d in QueenRays
    requires OnBoard(q.0 + d.0, q.1 + d.1) && At(b, (q.0 + d.0, q.1 + d.1)) != Empty
    ensures (q, (q.0 + d.0, q.1 + d.1)) in AttackMoves(b, White)
  {
    var m := (q, (q.0 + d.0, q.1 + d.1));
    assert SliderRays(Queen) == QueenRays;
    assert m in Ray(b, White, q, q, d, true);
    RayInRays(b, White, q, QueenRays, true, d, m);
    SliderMoves(b, White, q, Queen, true);
    CandidateMember(b, White, m);
  }

  /** A White king on k attacks the square one step d away. */
  lemma KingTouches(b: Board, k: Square, d: (int, int))
    requires OnBoard(k.0, k.1) && At(b, k) == Piece(King, White) && d in KingSteps
    requires OnBoard(k.0 + d.0, k.1 + d.1)
    ensures (k, (k.0 + d.0, k.1 + d.1)) in AttackMoves(b, White)
  {
    var m := (k, (k.0 + d.0, k.1 + d.1));
    StepsComplete(b, White, k, KingSteps, true, d);
    KingMoves(b, White, k, true);
    CandidateMember(b, White, m);
  }

  /** After the only Black king steps from (0, 0) to t, it is the first Black king,
      and every other square keeps what it held. */
  lemma KingStepped(b: Board, t: Square)
    requires OnBoard(t.0, t.1) && t != (0, 0) && Abs(t.0) <= 1 && Abs(t.1) <= 1
    requires b[0][0] == Piece(King, Black)
    requires forall r, col :: OnBoard(r, col) && (r, col) != (0, 0) ==> b[r][col] != Piece(King, Black)
    ensures FirstKing(Apply(b, ((0, 0), t)), Black, t)
    ensures forall r, col :: OnBoard(r, col) && (r, col) != (0, 0) && (r, col) != t ==>
      Apply(b, ((0, 0), t))[r][col] == b[r][col]
  {
    ApplyOrdinary(b, ((0, 0), t));
  }

  /** A board holding only a Black king on bk, a White queen on wq and a White king
      on wk. */
  function ThreePieces(bk: Square, wq: Square, wk: Square): Board
  {
    seq(8, r => seq(8, col =>
      if (r, col) == bk then Piece(King, Black)
      else if (r, col) == wq then Piece(Queen, White)
      else if (r, col) == wk then Piece(King, White)
      else Empty))
  }

  /** Black king on a8, White queen on b7, White king on c6. */
  ghost predicate IsMate(b: Board)
  {
    forall r, col :: OnBoard(r, col) ==>
      b[r][col] == (if (r, col) == (0, 0) then Piece(King, Black)
                    else if (r, col) == (1, 1) then Piece(Queen, White)
                    else if (r, col) == (2, 2) then Piece(King, White)
                    else Empty)
  }

  lemma MateAfter(b: Board, t: Square)
    requires IsMate(b) && (t == (0, 1) || t == (1, 0) || t == (1, 1))
    ensures InCheck(Apply(b, ((0, 0), t)), Black)
  {
    var b' := Apply(b, ((0, 0), t));
    KingStepped(b, t);
    InCheckMeaning(b', Black, t);
    if t == (0, 1) {
      QueenTouches(b', (1, 1), (-1, 0));
    } else if t == (1, 0) {
      QueenTouches(b', (1, 1), (0, -1));
    } else {
      KingTouches(b', (2, 2), (-1, -1));
    }
  }

  /** The squares next to the corner (0, 0). */
  lemma CornerNeighbours(t: Square)
    requires OnBoard(t.0, t.1) && t != (0, 0) && t.0 <= 1 && t.1 <= 1
    ensures t == (0, 1) || t == (1, 0) || t == (1, 1)
  {
  }

  /** The lone Black king can only step to (0, 1), (1, 0) or (1, 1). */
  lemma CornerKingMoves(b: Board, m: Move)
    requires b[0][0] == Piece(King, Black)
    requires forall r, col :: OnBoard(r, col) && (r, col) != (0, 0) ==> PieceColor(b[r][col]) != Some(Black)
    requires m in Candidates(b, Black)
    ensures m.0 == (0, 0) && (m.1 == (0, 1) || m.1 == (1, 0) || m.1 == (1, 1))
  {
    LoneKingMoves(b, Black, (0, 0), m);
    CornerNeighbours(m.1);
  }

  lemma MateInCheck(b: Board)
    requires IsMate(b)
    ensures InCheck(b, Black)
  {
    assert FirstKing(b, Black, (0, 0));
    InCheckMeaning(b, Black, (0, 0));
    QueenTouches(b, (1, 1), (-1, -1));
  }

  lemma MateNoMoves(b: Board)
    requires IsMate(b)
    ensures LegalMoves(b, Black) == []
  {
    forall m | m in Candidates(b, Black)
      ensures !Safe(b, Black, m)
    {
      CornerKingMoves(b, m);
      MateAfter(b, m.1);
    }
    NoLegalMoves(b, Black);
  }

  /** The Black king is attacked and every step it has leads into an attack:
      is_game_over reports checkmate. */
  lemma CheckmateExample(b: Board)
    requires IsMate(b)
    ensures InCheck(b, Black)
    ensures LegalMoves(b, Black) == []
    ensures Outcome(b, Black) == Some(Checkmate)
  {
    MateInCheck(b);
    MateNoMoves(b);
  }

  /** The checkmate position exists: it is the board with just those three pieces. */
  lemma CheckmateBoard()
    ensures var b := ThreePieces((0, 0), (1, 1), (2, 2));
      IsMate(b) && Outcome(b, Black) == Some(Checkmate)
  {
    var b := ThreePieces((0, 0), (1, 1), (2, 2));
    assert IsMate(b);
    CheckmateExample(b);
  }

  /** Black king on a8, White queen on c7, White king on a6. */
  ghost predicate IsStalemate(b: Board)
  {
    forall r, col :: OnBoard(r, col) ==>
      b[r][col] == (if (r, col) == (0, 0) then Piece(King, Black)
                    else if (r, col) == (1, 2) then Piece(Queen, White)
                    else if (r, col) == (2, 0) then Piece(King, White)
                    else Empty)
  }

  lemma StalemateAfter(b: Board, t: Square)
    requires IsStalemate(b) && (t == (0, 1) || t == (1, 0) || t == (1, 1))
    ensures InCheck(Apply(b, ((0, 0), t)), Black)
  {
    var b' := Apply(b, ((0, 0), t));
    KingStepped(b, t);
    InCheckMeaning(b', Black, t);
    if t == (0, 1) {
      QueenTouches(b', (1, 2), (-1, -1));
    } else if t == (1, 0) {
      KingTouches(b', (2, 0), (-1, 0));
    } else {
      KingTouches(b', (2, 0), (-1, 1));
    }
  }

  /** The queen on (1, 2) does not attack (0, 0): it is on none of her lines. */
  lemma StalemateQueenMisses(b: Board, m: Move)
    requires IsStalemate(b) && m in SquareMoves(b, White, (1, 2), true)
    ensures m.1 != (0, 0)
  {
    DirectionTablesAreUnits();
    assert At(b, (1, 2)) == Piece(Queen, White);
    RaysSound(b, White, (1, 2), QueenRays, true, m);
    var d :| d in QueenRays && m in Ray(b, White, (1, 2), (1, 2), d, true);
    RayBeyond(b, White, (1, 2), (1, 2), d, true, m);
  }

  /** The king on (2, 0) does not attack (0, 0): it is two rows away. */
  lemma StalemateKingMisses(b: Board, m: Move)
    requires IsStalemate(b) && m in SquareMoves(b, White, (2, 0), true)
    ensures m.1 != (0, 0)
  {
    assert At(b, (2, 0)) == Piece(King, White);
    KingMoves(b, White, (2, 0), true);
    KingStepNear(b, White, (2, 0), true, m);
  }

  /** No White attack ends on (0, 0). */
  lemma StalemateNoCheck(b: Board, m: Move)
    requires IsStalemate(b) && m in AttackMoves(b, White)
    ensures m.1 != (0, 0)
  {
    CandidateMember(b, White, m);
    if m.0 == (1, 2) {
      StalemateQueenMisses(b, m);
    } else if m.0 == (2, 0) {
      StalemateKingMisses(b, m);
    } else {
      SquareMovesOfOther(b, White, m.0, true);
      assert false;
    }
  }

  lemma StalemateNotInCheck(b: Board)
    requires IsStalemate(b)
    ensures !InCheck(b, Black)
  {
    assert FirstKing(b, Black, (0, 0));
    InCheckMeaning(b, Black, (0, 0));
    forall m | m in AttackMoves(b, White)
      ensures m.1 != (0, 0)
    {
      StalemateNoCheck(b, m);
    }
  }

  lemma StalemateNoMoves(b: Board)
    requires IsStalemate(b)
    ensures LegalMoves(b, Black) == []
  {
    forall m | m in Candidates(b, Black)
      ensures !Safe(b, Black, m)
    {
      CornerKingMoves(b, m);
      StalemateAfter(b, m.1);
    }
    NoLegalMoves(b, Black);
  }

  /** The Black king is not attacked but every step it has leads into an attack:
      is_game_over reports stalemate. */
  lemma StalemateExample(b: Board)
    requires IsStalemate(b)
    ensures !InCheck(b, Black)
    ensures LegalMoves(b, Black) == []
    ensures Outcome(b, Black) == Some(Stalemate)
  {
    StalemateNotInCheck(b);
    StalemateNoMoves(b);
  }

  /** The stalemate position exists: it is the board with just those three pieces. */
  lemma StalemateBoard()
    ensures var b := ThreePieces((0, 0), (1, 2), (2, 0));
      IsStalemate(b) && Outcome(b, Black) == Some(Stalemate)
  {
    var b := ThreePieces((0, 0), (1, 2), (2, 0));
    assert IsStalemate(b);
    StalemateExample(b);
  }
}
