/**
 * What the rules engine guarantees: the effect of executing a move, where
 * generated moves start and land, when castling is offered, what check means,
 * and that the legality filter keeps exactly the safe candidates.
 */
module RulesFacts {
  import opened Board
  import opened Rules

  // ---------------------------------------------------------------------------
  // make_move
  // ---------------------------------------------------------------------------

  /** The far rank of c's pawns. */
  function LastRank(c: Color): int
  {
    if c == White then 0 else 7
  }

  /** What a piece becomes on arriving on `row`: a pawn on its far rank is a queen of
      its colour, anything else stays what it is. */
  function Promote(x: Cell, row: int): Cell
  {
    if x.Piece? && x.kind == Pawn && row == LastRank(x.color) then Piece(Queen, x.color) else x
  }

  /** Only a pawn reaching its far rank changes, and it always becomes a queen. */
  lemma PromotionOnlyPawns(x: Cell, row: int)
    ensures Promote(x, row) != x <==> x.Piece? && x.kind == Pawn && row == LastRank(x.color)
    ensures Promote(x, row) != x ==> Promote(x, row) == Piece(Queen, x.color)
    ensures PieceColor(Promote(x, row)) == PieceColor(x)
  {
  }

  /** An ordinary move (not a two-column king move): the origin is emptied, the
      destination receives the moving piece, promoted if it is a pawn reaching its far
      rank, and every other square keeps what it held. */
  lemma {:induction false} ApplyOrdinary(b: Board, m: Move)
    requires OnBoard(m.0.0, m.0.1) && OnBoard(m.1.0, m.1.1) && m.0 != m.1
    requires !IsCastling(At(b, m.0), m)
    ensures forall r, col :: OnBoard(r, col) ==>
      Apply(b, m)[r][col] ==
        (if (r, col) == m.0 then Empty
         else if (r, col) == m.1 then Promote(At(b, m.0), m.1.0)
         else b[r][col])
  {
  }

  /** A two-column king move: the king goes to the destination and the cell in the
      corner on that side goes next to it, on the side of the origin; both the king's
      and the corner's squares are emptied and nothing else changes. (When the corner
      is the destination itself the king is what moves on; no generated move does that.) */
  lemma {:induction false} ApplyCastling(b: Board, m: Move)
    requires OnBoard(m.0.0, m.0.1) && OnBoard(m.1.0, m.1.1)
    requires IsCastling(At(b, m.0), m)
    requires RookJump(m.0, m.1).0 != m.1
    ensures OnBoard(RookJump(m.0, m.1).0.0, RookJump(m.0, m.1).0.1)
    ensures OnBoard(RookJump(m.0, m.1).1.0, RookJump(m.0, m.1).1.1)
    ensures forall r, col :: OnBoard(r, col) ==>
      Apply(b, m)[r][col] ==
        (if (r, col) == m.0 || (r, col) == RookJump(m.0, m.1).0 then Empty
         else if (r, col) == m.1 then At(b, m.0)
         else if (r, col) == RookJump(m.0, m.1).1 then At(b, RookJump(m.0, m.1).0)
         else b[r][col])
  {
  }

  // ---------------------------------------------------------------------------
  // The scan
  // ---------------------------------------------------------------------------

  /** (i, j) comes no later than s in row-major order. */
  predicate NotAfter(i: int, j: int, s: Square)
  {
    i < s.0 || (i == s.0 && j <= s.1)
  }

  /** A move is in the scan from square (i, j) when it is a move of that square or
      in the scan from the next one. */
  lemma ScanFromHead(b: Board, c: Color, i: nat, j: nat, attacks: bool, m: Move)
    requires i < 8 && j < 8
    ensures m in ScanFrom(b, c, i, j, attacks) <==>
      (m.0 == (i, j) && m in SquareMoves(b, c, (i, j), attacks)) || m in ScanFrom(b, c, i, j + 1, attacks)
  {
    var here := SquareMoves(b, c, (i, j), attacks);
    assert ScanFrom(b, c, i, j, attacks) == here + ScanFrom(b, c, i, j + 1, attacks);
    SquareMovesLands(b, c, (i, j), attacks);
  }

  /** A move is in the scan from (i, j) exactly when it is one of the moves of the
      square it starts on, and that square is on the board at (i, j) or later. */
  lemma {:induction false} ScanFromMember(b: Board, c: Color, i: nat, j: nat, attacks: bool, m: Move)
    requires i <= 8 && j <= 8
    ensures m in ScanFrom(b, c, i, j, attacks) <==>
      OnBoard(m.0.0, m.0.1) && NotAfter(i, j, m.0) && m in SquareMoves(b, c, m.0, attacks)
    decreases 8 - i, 8 - j
  {
    if i < 8 {
      if j == 8 {
        ScanFromMember(b, c, i + 1, 0, attacks, m);
      } else {
        ScanFromHead(b, c, i, j, attacks, m);
        ScanFromMember(b, c, i, j + 1, attacks, m);
        if m.0 == (i, j) {
          assert !NotAfter(i, j + 1, m.0);
        } else {
          assert NotAfter(i, j, m.0) <==> NotAfter(i, j + 1, m.0);
        }
      }
    }
  }

  /** The candidates of generate_moves are the moves of the squares, gathered. */
  lemma CandidateMember(b: Board, c: Color, m: Move)
    ensures m in Candidates(b, c) <==> OnBoard(m.0.0, m.0.1) && m in SquareMoves(b, c, m.0, false)
    ensures m in AttackMoves(b, c) <==> OnBoard(m.0.0, m.0.1) && m in SquareMoves(b, c, m.0, true)
  {
    ScanFromMember(b, c, 0, 0, false, m);
    ScanFromMember(b, c, 0, 0, true, m);
  }

  /** Every legal move starts on a piece of c, lands on the board on an empty or
      opponent-held square, and does not leave c in check; and the legal moves are
      exactly the candidates that pass that last test. */
  lemma LegalMovesSound(b: Board, c: Color, m: Move)
    ensures m in LegalMoves(b, c) <==> m in Candidates(b, c) && Safe(b, c, m)
    ensures m in LegalMoves(b, c) ==>
      OnBoard(m.0.0, m.0.1) && OnBoard(m.1.0, m.1.1)
      && PieceColor(At(b, m.0)) == Some(c) && Open(b, c, m.1)
      && !InCheck(Apply(b, m), c)
    ensures m in LegalMoves(b, c) ==> m.0 != m.1
  {
    SafeOnlyMember(b, c, Candidates(b, c), m);
    ScanFromLands(b, c, 0, 0, false);
  }

  /** Both squares of every legal move are on the board. */
  lemma LegalMovesOnBoard(b: Board, c: Color)
    ensures WithinBoard(LegalMoves(b, c))
  {
    forall m | m in LegalMoves(b, c)
      ensures OnBoard(m.0.0, m.0.1) && OnBoard(m.1.0, m.1.1)
    {
      LegalMovesSound(b, c, m);
    }
  }

  // ---------------------------------------------------------------------------
  // Castling
  // ---------------------------------------------------------------------------

  /** A jump moves by one of the offsets. */
  lemma {:induction false} StepsShape(b: Board, c: Color, s: Square, offsets: seq<(int, int)>, attacks: bool, m: Move)
    requires m in Steps(b, c, s, offsets, attacks)
    ensures exists d :: d in offsets && m.1 == (s.0 + d.0, s.1 + d.1)
  {
    if offsets != [] {
      var t := (s.0 + offsets[0].0, s.1 + offsets[0].1);
      if m.1 != t {
        StepsShape(b, c, s, offsets[1..], attacks, m);
        var d :| d in offsets[1..] && m.1 == (s.0 + d.0, s.1 + d.1);
        assert d in offsets;
      }
    }
  }

  /** The moves of a king of c: its steps, then (in move mode) its castlings. */
  lemma KingMoves(b: Board, c: Color, s: Square, attacks: bool)
    requires OnBoard(s.0, s.1) && At(b, s) == Piece(King, c)
    ensures SquareMoves(b, c, s, attacks) == Steps(b, c, s, KingSteps, attacks) + (if attacks then [] else Castles(b, c, s))
  {
  }

  /** A king step changes the column by at most one. */
  lemma KingStepsOneColumn(b: Board, c: Color, s: Square, m: Move)
    requires m in Steps(b, c, s, KingSteps, false)
    ensures Abs(m.1.1 - s.1) <= 1
  {
    StepsShape(b, c, s, KingSteps, false, m);
    var d :| d in KingSteps && m.1 == (s.0 + d.0, s.1 + d.1);
    assert -1 <= d.1 <= 1;
  }

  /** What castling requires, for a king of c on its home square moving to e. */
  predicate CastlingRoom(b: Board, c: Color, e: Square)
  {
    (c == White && b[7][4] == Piece(King, White)
      && ((e == (7, 6) && b[7][5] == Empty && b[7][6] == Empty && b[7][7] == Piece(Rook, White))
       || (e == (7, 2) && b[7][3] == Empty && b[7][2] == Empty && b[7][1] == Empty && b[7][0] == Piece(Rook, White))))
    || (c == Black && b[0][4] == Piece(King, Black)
      && ((e == (0, 6) && b[0][5] == Empty && b[0][6] == Empty && b[0][7] == Piece(Rook, Black))
       || (e == (0, 2) && b[0][3] == Empty && b[0][2] == Empty && b[0][1] == Empty && b[0][0] == Piece(Rook, Black))))
  }

  /** The home square of c's king. */
  function KingHome(c: Color): Square
  {
    if c == White then (7, 4) else (0, 4)
  }

  /** The castlings of a square are exactly the moves from the king's home square to
      a destination with room to castle. */
  lemma CastlesShape(b: Board, c: Color, s: Square, m: Move)
    ensures m in Castles(b, c, s) <==> m.0 == s && s == KingHome(c) && CastlingRoom(b, c, m.1)
  {
  }

  /** The only candidate two-column king moves are the castlings: from the king's home
      square, with the king there, the rook of the same colour in the corner and the
      squares between them empty. */
  lemma CastlingOffered(b: Board, c: Color, m: Move)
    requires m in Candidates(b, c) && OnBoard(m.0.0, m.0.1) && IsCastling(At(b, m.0), m)
    ensures m.0 == KingHome(c) && CastlingRoom(b, c, m.1)
  {
    CandidateMember(b, c, m);
    if PieceColor(At(b, m.0)) != Some(c) {
      SquareMovesOfOther(b, c, m.0, false);
      assert false;
    }
    KingMoves(b, c, m.0, false);
    if m in Steps(b, c, m.0, KingSteps, false) {
      KingStepsOneColumn(b, c, m.0, m);
      assert false;
    }
    CastlesShape(b, c, m.0, m);
  }

  /** Conversely, castling is offered whenever those conditions hold. */
  lemma CastlingAvailable(b: Board, c: Color, e: Square)
    requires CastlingRoom(b, c, e)
    ensures (KingHome(c), e) in Candidates(b, c)
  {
    var s := KingHome(c);
    CastlesShape(b, c, s, (s, e));
    KingMoves(b, c, s, false);
    CandidateMember(b, c, (s, e));
  }

  // ---------------------------------------------------------------------------
  // Check
  // ---------------------------------------------------------------------------

  /** k is the first square in row-major order holding c's king. */
  ghost predicate FirstKing(b: Board, c: Color, k: Square)
  {
    OnBoard(k.0, k.1) && b[k.0][k.1] == Piece(King, c)
    && forall r, col :: OnBoard(r, col) && (r < k.0 || (r == k.0 && col < k.1)) ==> b[r][col] != Piece(King, c)
  }

  /** The king search from (i, j) finds the first king at (i, j) or later, and finds
      none exactly when there is none there. */
  lemma {:induction false} KingFromFinds(b: Board, c: Color, i: nat, j: nat)
    requires i <= 8 && j <= 8
    ensures KingFrom(b, c, i, j).None? <==>
      forall r, col :: OnBoard(r, col) && NotAfter(i, j, (r, col)) ==> b[r][col] != Piece(King, c)
    ensures KingFrom(b, c, i, j).Some? ==>
      var k := KingFrom(b, c, i, j).value;
      NotAfter(i, j, k) && b[k.0][k.1] == Piece(King, c)
      && (forall r, col :: OnBoard(r, col) && NotAfter(i, j, (r, col)) && (r < k.0 || (r == k.0 && col < k.1))
            ==> b[r][col] != Piece(King, c))
    decreases 8 - i, 8 - j
  {
    if i < 8 {
      if j == 8 {
        KingFromFinds(b, c, i + 1, 0);
      } else {
        KingFromFinds(b, c, i, j + 1);
      }
    }
  }

  /** is_in_check: a side without a king is in check; otherwise it is in check exactly
      when some attack of the opponent ends on the first square holding its king. */
  lemma InCheckMeaning(b: Board, c: Color, k: Square)
    ensures (forall r, col :: OnBoard(r, col) ==> b[r][col] != Piece(King, c)) ==> InCheck(b, c)
    ensures FirstKing(b, c, k) ==>
      (InCheck(b, c) <==> exists m :: m in AttackMoves(b, Opponent(c)) && m.1 == k)
  {
    KingFromFinds(b, c, 0, 0);
    if FirstKing(b, c, k) {
      var k' := KingFrom(b, c, 0, 0).value;
      assert !(k'.0 < k.0 || (k'.0 == k.0 && k'.1 < k.1));
      assert !(k.0 < k'.0 || (k.0 == k'.0 && k.1 < k'.1));
    }
  }

  // ---------------------------------------------------------------------------
  // Captures are attacks
  // ---------------------------------------------------------------------------

  /** A ray in move mode is part of the same ray in attack mode. */
  lemma {:induction false} RayWithinAttacks(b: Board, c: Color, s: Square, p: Square, d: (int, int), m: Move)
    requires OnBoard(p.0, p.1) && Unit(d)
    requires m in Ray(b, c, s, p, d, false)
    ensures m in Ray(b, c, s, p, d, true)
    decreases Reach(p, d)
  {
    var t := (p.0 + d.0, p.1 + d.1);
    if OnBoard(t.0, t.1) && At(b, t) == Empty && m != (s, t) {
      RayWithinAttacks(b, c, s, t, d, m);
    }
  }

  lemma {:induction false} RaysWithinAttacks(b: Board, c: Color, s: Square, ds: seq<(int, int)>, m: Move)
    requires OnBoard(s.0, s.1) && Units(ds)
    requires m in Rays(b, c, s, ds, false)
    ensures m in Rays(b, c, s, ds, true)
  {
    if ds != [] {
      if m in Ray(b, c, s, s, ds[0], false) {
        RayWithinAttacks(b, c, s, s, ds[0], m);
      } else {
        RaysWithinAttacks(b, c, s, ds[1..], m);
      }
    }
  }

  lemma {:induction false} StepsWithinAttacks(b: Board, c: Color, s: Square, offsets: seq<(int, int)>, m: Move)
    requires m in Steps(b, c, s, offsets, false)
    ensures m in Steps(b, c, s, offsets, true)
  {
    if offsets != [] {
      if m in Steps(b, c, s, offsets[1..], false) {
        StepsWithinAttacks(b, c, s, offsets[1..], m);
      }
    }
  }

  /** A candidate of the piece on s that captures is also an attack of that piece. */
  lemma SquareCaptureIsAttack(b: Board, c: Color, s: Square, m: Move)
    requires OnBoard(s.0, s.1) && m in SquareMoves(b, c, s, false)
    requires OnBoard(m.1.0, m.1.1) && Enemy(b, c, m.1)
    ensures m in SquareMoves(b, c, s, true)
  {
    DirectionTablesAreUnits();
    var x := At(b, s);
    match x.kind
    case Pawn =>
    case Knight => StepsWithinAttacks(b, c, s, KnightJumps, m);
    case Bishop => RaysWithinAttacks(b, c, s, BishopRays, m);
    case Rook => RaysWithinAttacks(b, c, s, RookRays, m);
    case Queen => RaysWithinAttacks(b, c, s, QueenRays, m);
    case King =>
      KingMoves(b, c, s, false);
      KingMoves(b, c, s, true);
      if m in Steps(b, c, s, KingSteps, false) {
        StepsWithinAttacks(b, c, s, KingSteps, m);
      }
  }

  /** Every candidate capture of c is among the attacks of c: a piece that could be
      taken is a piece that is attacked, which is what check detection relies on. */
  lemma CapturesAreAttacks(b: Board, c: Color, m: Move)
    requires m in Candidates(b, c) && OnBoard(m.1.0, m.1.1) && Enemy(b, c, m.1)
    ensures m in AttackMoves(b, c)
  {
    CandidateMember(b, c, m);
    SquareCaptureIsAttack(b, c, m.0, m);
  }
}
