/**
 * The rules engine as the program runs it: nested loops over the board that
 * append to a move list, ray loops that stop at the edge or at the first
 * occupied square, a board copy updated cell by cell, and a king search with
 * an early exit. Each method is proved to compute the function of module
 * Rules that specifies it.
 */
module Game {
  import opened Board
  import opened Rules

  // ---------------------------------------------------------------------------
  // Per-piece generation (both generators; `attacks` selects the attack one)
  // ---------------------------------------------------------------------------

  /** Walks one ray from s until it leaves the board or meets a piece. */
  method AddRay(b: Board, c: Color, s: Square, d: (int, int), attacks: bool, moves: seq<Move>)
    returns (out: seq<Move>)
    requires OnBoard(s.0, s.1) && Unit(d)
    ensures out == moves + Ray(b, c, s, s, d, attacks)
  {
    out := moves;
    var p := s;
    while true
      invariant OnBoard(p.0, p.1)
      invariant out + Ray(b, c, s, p, d, attacks) == moves + Ray(b, c, s, s, d, attacks)
      decreases Reach(p, d)
    {
      var t := (p.0 + d.0, p.1 + d.1);
      RayStep(b, c, s, p, d, attacks);
      if !OnBoard(t.0, t.1) {
        break;
      }
      var target := b[t.0][t.1];
      if target == Empty {
        out := out + [(s, t)];
        p := t;
      } else {
        if attacks || PieceColor(target) == Some(Opponent(c)) {
          out := out + [(s, t)];
        }
        break;
      }
    }
  }

  /** One square of a ray: the three ways Ray continues from p. */
  lemma RayStep(b: Board, c: Color, s: Square, p: Square, d: (int, int), attacks: bool)
    requires OnBoard(p.0, p.1) && Unit(d)
    ensures var t := (p.0 + d.0, p.1 + d.1);
      && (!OnBoard(t.0, t.1) ==> Ray(b, c, s, p, d, attacks) == [])
      && (OnBoard(t.0, t.1) && b[t.0][t.1] == Empty ==>
            Reach(t, d) < Reach(p, d) && Ray(b, c, s, p, d, attacks) == [(s, t)] + Ray(b, c, s, t, d, attacks))
      && (OnBoard(t.0, t.1) && b[t.0][t.1] != Empty ==>
            Ray(b, c, s, p, d, attacks) == if attacks || PieceColor(b[t.0][t.1]) == Some(Opponent(c)) then [(s, t)] else [])
  {
  }

  method AddRays(b: Board, c: Color, s: Square, ds: seq<(int, int)>, attacks: bool, moves: seq<Move>)
    returns (out: seq<Move>)
    requires OnBoard(s.0, s.1) && Units(ds)
    ensures out == moves + Rays(b, c, s, ds, attacks)
  {
    out := moves;
    for k := 0 to |ds|
      invariant out + Rays(b, c, s, ds[k..], attacks) == moves + Rays(b, c, s, ds, attacks)
    {
      RaysStep(b, c, s, ds, k, attacks);
      ConcatAssoc(out, Ray(b, c, s, s, ds[k], attacks), Rays(b, c, s, ds[k + 1..], attacks));
      out := AddRay(b, c, s, ds[k], attacks, out);
    }
  }

  /** One direction of Rays: the ray along ds[k] followed by the later ones. */
  lemma RaysStep(b: Board, c: Color, s: Square, ds: seq<(int, int)>, k: nat, attacks: bool)
    requires OnBoard(s.0, s.1) && Units(ds) && k < |ds|
    ensures Unit(ds[k]) && Units(ds[k..]) && Units(ds[k + 1..])
    ensures Rays(b, c, s, ds[k..], attacks) == Ray(b, c, s, s, ds[k], attacks) + Rays(b, c, s, ds[k + 1..], attacks)
  {
    assert ds[k..][0] == ds[k];
    assert ds[k..][1..] == ds[k + 1..];
  }

  /** One offset of Steps: the jump by offsets[k] when it is taken, then the later ones. */
  lemma StepsStep(b: Board, c: Color, s: Square, offsets: seq<(int, int)>, k: nat, attacks: bool)
    requires k < |offsets|
    ensures var t := (s.0 + offsets[k].0, s.1 + offsets[k].1);
      Steps(b, c, s, offsets[k..], attacks)
      == (if OnBoard(t.0, t.1) && (attacks || b[t.0][t.1] == Empty || PieceColor(b[t.0][t.1]) == Some(Opponent(c)))
          then [(s, t)] else [])
         + Steps(b, c, s, offsets[k + 1..], attacks)
  {
    assert offsets[k..][0] == offsets[k];
    assert offsets[k..][1..] == offsets[k + 1..];
  }

  /** Knight jumps and king steps. */
  method AddSteps(b: Board, c: Color, s: Square, offsets: seq<(int, int)>, attacks: bool, moves: seq<Move>)
    returns (out: seq<Move>)
    ensures out == moves + Steps(b, c, s, offsets, attacks)
  {
    out := moves;
    for k := 0 to |offsets|
      invariant out + Steps(b, c, s, offsets[k..], attacks) == moves + Steps(b, c, s, offsets, attacks)
    {
      StepsStep(b, c, s, offsets, k, attacks);
      var ni, nj := s.0 + offsets[k].0, s.1 + offsets[k].1;
      if OnBoard(ni, nj) {
        var target := b[ni][nj];
        if attacks || target == Empty || PieceColor(target) == Some(Opponent(c)) {
          ConcatAssoc(out, [(s, (ni, nj))], Steps(b, c, s, offsets[k + 1..], attacks));
          out := out + [(s, (ni, nj))];
        }
      }
    }
  }

  method AddPawnTake(b: Board, c: Color, s: Square, dc: int, moves: seq<Move>) returns (out: seq<Move>)
    ensures out == moves + PawnTake(b, c, s, dc)
  {
    out := moves;
    var nextRow, nextCol := s.0 + Forward(c), s.1 + dc;
    if OnBoard(nextRow, nextCol) {
      var target := b[nextRow][nextCol];
      if target != Empty && PieceColor(target) == Some(Opponent(c)) {
        out := out + [(s, (nextRow, nextCol))];
      }
    }
  }

  method AddPawnMoves(b: Board, c: Color, s: Square, moves: seq<Move>) returns (out: seq<Move>)
    ensures out == moves + PawnMoves(b, c, s)
  {
    out := moves;
    var d := if c == White then -1 else 1;
    var nextRow := s.0 + d;
    if OnBoard(nextRow, s.1) && b[nextRow][s.1] == Empty {
      out := out + [(s, (nextRow, s.1))];
      if (c == White && s.0 == 6) || (c == Black && s.0 == 1) {
        var nextRow2 := s.0 + 2 * d;
        if OnBoard(nextRow2, s.1) && b[nextRow2][s.1] == Empty {
          out := out + [(s, (nextRow2, s.1))];
        }
      }
    }
    out := AddPawnTake(b, c, s, -1, out);
    out := AddPawnTake(b, c, s, 1, out);
  }

  method AddPawnAttacks(b: Board, c: Color, s: Square, moves: seq<Move>) returns (out: seq<Move>)
    ensures out == moves + PawnAttacks(b, c, s)
  {
    out := moves;
    var d := if c == White then -1 else 1;
    var nextRow := s.0 + d;
    if OnBoard(nextRow, s.1) {
      if b[nextRow][s.1] == Empty {
        out := out + [(s, (nextRow, s.1))];
      }
      out := AddPawnTake(b, c, s, -1, out);
      out := AddPawnTake(b, c, s, 1, out);
    }
  }

  method AddCastles(b: Board, c: Color, s: Square, moves: seq<Move>) returns (out: seq<Move>)
    ensures out == moves + Castles(b, c, s)
  {
    out := moves;
    if c == White && s == (7, 4) && b[7][4] == Piece(King, White) {
      if b[7][5] == Empty && b[7][6] == Empty && b[7][7] == Piece(Rook, White) {
        out := out + [(s, (7, 6))];
      }
      if b[7][3] == Empty && b[7][2] == Empty && b[7][1] == Empty && b[7][0] == Piece(Rook, White) {
        out := out + [(s, (7, 2))];
      }
    } else if c == Black && s == (0, 4) && b[0][4] == Piece(King, Black) {
      if b[0][5] == Empty && b[0][6] == Empty && b[0][7] == Piece(Rook, Black) {
        out := out + [(s, (0, 6))];
      }
      if b[0][3] == Empty && b[0][2] == Empty && b[0][1] == Empty && b[0][0] == Piece(Rook, Black) {
        out := out + [(s, (0, 2))];
      }
    }
  }

  /** Appends the moves of c's piece standing on s, dispatching on its kind. */
  method AddPieceMoves(b: Board, c: Color, s: Square, attacks: bool, moves: seq<Move>) returns (out: seq<Move>)
    requires OnBoard(s.0, s.1) && PieceColor(b[s.0][s.1]) == Some(c)
    ensures out == moves + SquareMoves(b, c, s, attacks)
  {
    DirectionTablesAreUnits();
    match b[s.0][s.1].kind
    case Pawn =>
      if attacks {
        out := AddPawnAttacks(b, c, s, moves);
      } else {
        out := AddPawnMoves(b, c, s, moves);
      }
    case Knight =>
      out := AddSteps(b, c, s, KnightJumps, attacks, moves);
    case Bishop =>
      out := AddRays(b, c, s, BishopRays, attacks, moves);
    case Rook =>
      out := AddRays(b, c, s, RookRays, attacks, moves);
    case Queen =>
      out := AddRays(b, c, s, QueenRays, attacks, moves);
    case King =>
      out := AddSteps(b, c, s, KingSteps, attacks, moves);
      if !attacks {
        out := AddCastles(b, c, s, out);
      }
  }

  /** The board scan shared by both generators: every square in row-major order,
      skipping those that do not hold a piece of c. */
  method ScanBoard(b: Board, c: Color, attacks: bool) returns (moves: seq<Move>)
    ensures moves == ScanFrom(b, c, 0, 0, attacks)
  {
    moves := [];
    for i := 0 to 8
      invariant moves + ScanFrom(b, c, i, 0, attacks) == ScanFrom(b, c, 0, 0, attacks)
    {
      moves := ScanRow(b, c, i, attacks, moves);
    }
  }

  /** One row of the scan (the inner loop). */
  method ScanRow(b: Board, c: Color, i: nat, attacks: bool, moves: seq<Move>) returns (out: seq<Move>)
    requires i < 8
    ensures out + ScanFrom(b, c, i + 1, 0, attacks) == moves + ScanFrom(b, c, i, 0, attacks)
  {
    out := moves;
    for j := 0 to 8
      invariant out + ScanFrom(b, c, i, j, attacks) == moves + ScanFrom(b, c, i, 0, attacks)
    {
      var piece := b[i][j];
      ScanFromStep(b, c, i, j, attacks, out);
      if piece == Empty || PieceColor(piece) != Some(c) {
        SquareMovesOfOther(b, c, (i, j), attacks);
        assert out + [] == out;
        assert out + ScanFrom(b, c, i, j + 1, attacks) == moves + ScanFrom(b, c, i, 0, attacks);
        continue;
      }
      out := AddPieceMoves(b, c, (i, j), attacks, out);
      assert out + ScanFrom(b, c, i, j + 1, attacks) == moves + ScanFrom(b, c, i, 0, attacks);
    }
  }

  // ---------------------------------------------------------------------------
  // The operations of the rules engine
  // ---------------------------------------------------------------------------

  /** generate_pseudo_legal_moves */
  method GeneratePseudoLegalMoves(b: Board, c: Color) returns (moves: seq<Move>)
    ensures moves == AttackMoves(b, c)
  {
    moves := ScanBoard(b, c, true);
  }

  /** make_move: works on a copy; the board passed in is a value and stays as it was. */
  method MakeMove(b: Board, m: Move) returns (nb: Board)
    requires OnBoard(m.0.0, m.0.1) && OnBoard(m.1.0, m.1.1)
    ensures nb == Apply(b, m)
  {
    nb := b;
    var (start, end) := m;
    var piece := nb[start.0][start.1];
    nb := nb[end.0 := nb[end.0][end.1 := piece]];
    nb := nb[start.0 := nb[start.0][start.1 := Empty]];

    if piece == Piece(Pawn, White) && end.0 == 0 {
      nb := nb[end.0 := nb[end.0][end.1 := Piece(Queen, White)]];
    }
    if piece == Piece(Pawn, Black) && end.0 == 7 {
      nb := nb[end.0 := nb[end.0][end.1 := Piece(Queen, Black)]];
    }

    if piece.Piece? && piece.kind == King && Abs(end.1 - start.1) == 2 {
      var rookStart, rookEnd;
      if end.1 > start.1 {
        rookStart, rookEnd := (start.0, 7), (start.0, end.1 - 1);
      } else {
        rookStart, rookEnd := (start.0, 0), (start.0, end.1 + 1);
      }
      nb := nb[rookEnd.0 := nb[rookEnd.0][rookEnd.1 := nb[rookStart.0][rookStart.1]]];
      nb := nb[rookStart.0 := nb[rookStart.0][rookStart.1 := Empty]];
    }
  }

  /** The king search of is_in_check, one row (the inner loop, left at the first hit). */
  method FindKingInRow(b: Board, c: Color, i: nat) returns (kingPos: Option<Square>)
    requires i < 8
    ensures kingPos.Some? ==> kingPos == KingFrom(b, c, i, 0)
    ensures kingPos.None? ==> KingFrom(b, c, i, 0) == KingFrom(b, c, i + 1, 0)
  {
    var king := Piece(King, c);
    kingPos := None;
    for j := 0 to 8
      invariant kingPos == None
      invariant KingFrom(b, c, i, j) == KingFrom(b, c, i, 0)
    {
      if b[i][j] == king {
        kingPos := Some((i, j));
        break;
      }
    }
  }

  /** is_in_check: a side without a king counts as in check. */
  method IsInCheck(b: Board, c: Color) returns (check: bool)
    ensures check == InCheck(b, c)
  {
    var kingPos: Option<Square> := None;
    for i := 0 to 8
      invariant kingPos == None
      invariant KingFrom(b, c, i, 0) == KingFrom(b, c, 0, 0)
    {
      kingPos := FindKingInRow(b, c, i);
      if kingPos.Some? {
        break;
      }
    }
    if kingPos == None {
      return true;
    }

    var oppMoves := GeneratePseudoLegalMoves(b, Opponent(c));
    check := EndsOn(oppMoves, kingPos.value);
  }

  /** The search loop of is_in_check: does some move of ms end on t? */
  method EndsOn(ms: seq<Move>, t: Square) returns (hit: bool)
    ensures hit <==> exists m :: m in ms && m.1 == t
  {
    for k := 0 to |ms|
      invariant forall q :: 0 <= q < k ==> ms[q].1 != t
    {
      if ms[k].1 == t {
        assert ms[k] in ms;
        return true;
      }
    }
    return false;
  }

  /** generate_moves: the candidates, each tried on a copy of the board and kept only
      when the mover is not in check afterwards. */
  method GenerateMoves(b: Board, c: Color) returns (legal: seq<Move>)
    ensures legal == LegalMoves(b, c)
  {
    var moves := ScanBoard(b, c, false);
    ScanFromLands(b, c, 0, 0, false);
    legal := KeepSafe(b, c, moves);
  }

  /** The filter loop of generate_moves. */
  method KeepSafe(b: Board, c: Color, moves: seq<Move>) returns (legal: seq<Move>)
    requires WithinBoard(moves)
    ensures legal == SafeOnly(b, c, moves)
  {
    legal := [];
    for k := 0 to |moves|
      invariant legal + SafeOnly(b, c, moves[k..]) == SafeOnly(b, c, moves)
    {
      SafeOnlyStep(b, c, moves, k, legal);
      assert moves[k] in moves;
      var newBoard := MakeMove(b, moves[k]);
      var check := IsInCheck(newBoard, c);
      if !check {
        legal := legal + [moves[k]];
      } else {
        assert legal + [] == legal;
      }
    }
  }


  /** is_game_over: over exactly when c has no legal move, that is when every move
      c's pieces could make leaves c in check; then checkmate if c is in check now,
      stalemate otherwise. */
  method IsGameOver(b: Board, c: Color) returns (over: bool, reason: Option<Reason>)
    ensures over <==> LegalMoves(b, c) == []
    ensures over <==> forall m :: m in Candidates(b, c) ==> !Safe(b, c, m)
    ensures reason == Some(Checkmate) <==> over && InCheck(b, c)
    ensures reason == Some(Stalemate) <==> over && !InCheck(b, c)
    ensures reason == None <==> !over
    ensures reason == Outcome(b, c)
  {
    NoLegalMoves(b, c);
    var moves := GenerateMoves(b, c);
    if moves == [] {
      var check := IsInCheck(b, c);
      if check {
        return true, Some(Checkmate);
      } else {
        return true, Some(Stalemate);
      }
    }
    return false, None;
  }
}
