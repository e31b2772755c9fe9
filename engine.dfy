/**
 * The engine: evaluate_board and the fixed-depth alpha-beta minimax over the
 * legal moves. The search is proved to compute the abstract search of module
 * Search on the game tree of module Evaluation, which carries over its results
 * to the engine.
 */
module Engine {
  import opened Board
  import opened Rules
  import opened Search
  import opened Evaluation
  import Game

  /** evaluate_board */
  method EvaluateBoard(b: Board) returns (score: int)
    ensures score == Material(b)
  {
    score := 0;
    for i := 0 to 8
      invariant score + RowsValue(b[i..]) == Material(b)
    {
      assert b[i..][1..] == b[i + 1..];
      score := AddRow(b[i], score);
    }
  }

  /** The inner loop of evaluate_board: adds a row's values to the running score. */
  method AddRow(row: seq<Cell>, score: int) returns (out: int)
    ensures out == score + RowValue(row)
  {
    out := score;
    for j := 0 to |row|
      invariant out + RowValue(row[j..]) == score + RowValue(row)
    {
      assert row[j..][1..] == row[j + 1..];
      out := out + PieceValue(row[j]);
    }
  }

  /** minimax: a leaf (no depth left, or no legal move) scores its evaluation and
      chooses nothing; otherwise the legal moves are searched in order. The result is
      the abstract search of the game tree. */
  method Minimax(b: Board, depth: nat, alpha: ExtInt, beta: ExtInt, max: bool) returns (score: int, best: Option<Move>)
    ensures score == AlphaBeta(GameTree(b, depth, max), alpha, beta, max).score
    ensures best == MoveAt(LegalMoves(b, SideToMove(max)), AlphaBeta(GameTree(b, depth, max), alpha, beta, max).best)
    decreases depth, 2
  {
    var legalMoves := Game.GenerateMoves(b, SideToMove(max));
    if depth == 0 || legalMoves == [] {
      GameTreeLeaf(b, depth, alpha, beta, max);
      score := EvaluateBoard(b);
      best := None;
      return;
    }
    var childDepth := NextDepth(depth);
    GameTreeExpands(b, depth, max);
    score, best := SearchMoves(b, childDepth, alpha, beta, max, legalMoves, GameTree(b, depth, max));
  }

  /** One turn of the loop: move k is made on a copy and the position after it is
      searched with the current window, to the depth left, by the side to move there. */
  method SearchChild(b: Board, legalMoves: seq<Move>, k: nat, depth: nat, alpha: ExtInt, beta: ExtInt, max: bool, ghost t: Tree)
    returns (evalScore: int)
    requires k < |legalMoves| && Expands(b, depth, max, legalMoves, t)
    ensures evalScore == AlphaBeta(t.children[k], alpha, beta, max).score
    decreases depth + 1, 0
  {
    assert IsChild(b, legalMoves[k], depth, max, t.children[k]);
    var newBoard := Game.MakeMove(b, legalMoves[k]);
    var bestReply;
    evalScore, bestReply := Minimax(newBoard, depth, alpha, beta, max);
  }

  /** The loop of minimax over the legal moves: the running best is replaced only by a
      strictly better score, alpha (maximizing) or beta (minimizing) is narrowed after
      each move, and the loop is left as soon as beta <= alpha. */
  method SearchMoves(b: Board, depth: nat, alpha: ExtInt, beta: ExtInt, max: bool, legalMoves: seq<Move>, ghost t: Tree)
    returns (score: int, best: Option<Move>)
    requires 0 < |legalMoves| && Expands(b, depth, !max, legalMoves, t)
    ensures score == AlphaBeta(t, alpha, beta, max).score
    ensures best == MoveAt(legalMoves, AlphaBeta(t, alpha, beta, max).best)
    decreases depth + 1, 1
  {
    ghost var bestIndex: Option<nat> := None;
    ghost var visits: seq<Visit> := [];
    best := None;
    var a, z := alpha, beta;
    var bound := if max then NegInf else PosInf;
    var k := 0;
    while k < |legalMoves|
      invariant k <= |legalMoves|
      invariant k == 0 ==> bound == if max then NegInf else PosInf
      invariant k > 0 ==> bound.Fin?
      invariant best == MoveAt(legalMoves, bestIndex)
      invariant Scan(t, k, bound, bestIndex, a, z, visits, max) == AlphaBeta(t, alpha, beta, max)
      decreases |legalMoves| - k
    {
      var evalScore := SearchChild(b, legalMoves, k, depth, a, z, !max, t);
      ScanStep(t, k, bound, bestIndex, a, z, visits, max);
      visits := visits + [Visit(a, z, evalScore)];
      if max {
        if Lt(bound, Fin(evalScore)) {
          bound := Fin(evalScore);
          best := Some(legalMoves[k]);
          bestIndex := Some(k);
        }
        a := Max(a, Fin(evalScore));
      } else {
        if Lt(Fin(evalScore), bound) {
          bound := Fin(evalScore);
          best := Some(legalMoves[k]);
          bestIndex := Some(k);
        }
        z := Min(z, Fin(evalScore));
      }
      if Le(z, a) {
        score := bound.value;
        return;
      }
      k := k + 1;
    }
    score := bound.value;
  }
}
