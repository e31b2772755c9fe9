/**
 * The evaluation and the game tree: material balance, and the tree of positions
 * that the fixed-depth search of the engine examines. White maximizes and Black
 * minimizes.
 */
module Evaluation {
  import opened Board
  import opened Rules
  import opened Search
  import RulesFacts

  // ---------------------------------------------------------------------------
  // Evaluation
  // ---------------------------------------------------------------------------

  /** The sum of the values of a row's cells. */
  function RowValue(row: seq<Cell>): int
  {
    if row == [] then 0 else PieceValue(row[0]) + RowValue(row[1..])
  }

  /** The sum of the values of the rows. */
  function RowsValue(rows: seq<seq<Cell>>): int
  {
    if rows == [] then 0 else RowValue(rows[0]) + RowsValue(rows[1..])
  }

  /** The material balance: every cell's value summed, White positive. */
  function Material(b: Board): int
  {
    RowsValue(b)
  }

  /** Replacing one cell changes the row's value by the difference of the two cells. */
  lemma {:induction false} RowValuePut(row: seq<Cell>, j: nat, x: Cell)
    requires j < |row|
    ensures RowValue(row[j := x]) == RowValue(row) - PieceValue(row[j]) + PieceValue(x)
  {
    if j > 0 {
      assert row[j := x][1..] == row[1..][j - 1 := x];
      RowValuePut(row[1..], j - 1, x);
    }
  }

  lemma {:induction false} RowsValuePut(rows: seq<seq<Cell>>, i: nat, row: seq<Cell>)
    requires i < |rows|
    ensures RowsValue(rows[i := row]) == RowsValue(rows) - RowValue(rows[i]) + RowValue(row)
  {
    if i > 0 {
      assert rows[i := row][1..] == rows[1..][i - 1 := row];
      RowsValuePut(rows[1..], i - 1, row);
    }
  }

  /** Replacing one cell of the board changes the material by the difference. */
  lemma MaterialPut(b: Board, s: Square, x: Cell)
    requires OnBoard(s.0, s.1)
    ensures Material(Put(b, s, x)) == Material(b) - PieceValue(At(b, s)) + PieceValue(x)
  {
    RowValuePut(b[s.0], s.1, x);
    RowsValuePut(b, s.0, b[s.0][s.1 := x]);
  }

  /** An ordinary move changes the material by the value of what stood on the
      destination (a capture) and by the promotion of a pawn to a queen. */
  lemma MaterialAfterMove(b: Board, m: Move)
    requires OnBoard(m.0.0, m.0.1) && OnBoard(m.1.0, m.1.1) && m.0 != m.1
    requires !IsCastling(At(b, m.0), m)
    ensures Material(Apply(b, m)) ==
      Material(b) - PieceValue(At(b, m.1))
      + PieceValue(RulesFacts.Promote(At(b, m.0), m.1.0)) - PieceValue(At(b, m.0))
  {
    var (s, e) := m;
    var piece := At(b, s);
    var b0 := Put(b, e, piece);
    MaterialPut(b, e, piece);
    MaterialPut(b0, s, Empty);
    var moved := Put(b0, s, Empty);
    if piece == Piece(Pawn, White) && e.0 == 0 {
      MaterialPut(moved, e, Piece(Queen, White));
    } else if piece == Piece(Pawn, Black) && e.0 == 7 {
      MaterialPut(moved, e, Piece(Queen, Black));
    }
  }

  /** The row with every piece given to the other side. */
  function SwappedRow(row: seq<Cell>): (r: seq<Cell>)
    ensures |r| == |row| && forall j :: 0 <= j < |row| ==> r[j] == Swapped(row[j])
  {
    if row == [] then [] else [Swapped(row[0])] + SwappedRow(row[1..])
  }

  function SwappedRows(rows: seq<seq<Cell>>): (r: seq<seq<Cell>>)
    ensures |r| == |rows| && forall i :: 0 <= i < |rows| ==> r[i] == SwappedRow(rows[i])
  {
    if rows == [] then [] else [SwappedRow(rows[0])] + SwappedRows(rows[1..])
  }

  lemma {:induction false} SwappedRowValue(row: seq<Cell>)
    ensures RowValue(SwappedRow(row)) == -RowValue(row)
  {
    if row != [] {
      if row[0].Piece? {
        PieceValueSymmetry(row[0].kind);
      }
      assert SwappedRow(row)[1..] == SwappedRow(row[1..]);
      SwappedRowValue(row[1..]);
    }
  }

  /** Giving every piece to the other side negates the material: the evaluation
      favours neither colour. */
  lemma {:induction false} SwappedMaterial(rows: seq<seq<Cell>>)
    ensures RowsValue(SwappedRows(rows)) == -RowsValue(rows)
  {
    if rows != [] {
      SwappedRowValue(rows[0]);
      assert SwappedRows(rows)[1..] == SwappedRows(rows[1..]);
      SwappedMaterial(rows[1..]);
    }
  }

  lemma RowsValueAt(rows: seq<seq<Cell>>, k: nat)
    requires k < |rows|
    ensures RowsValue(rows[k..]) == RowValue(rows[k]) + RowsValue(rows[k + 1..])
  {
    assert rows[k..][1..] == rows[k + 1..];
  }

  /** A board whose row 7 - r is row r with the colours swapped is balanced. */
  lemma MirroredBalanced(b: Board)
    requires forall r :: 0 <= r < 4 ==> b[7 - r] == SwappedRow(b[r])
    ensures Material(b) == 0
  {
    assert b[0..] == b && b[8..] == [];
    RowsValueAt(b, 0); RowsValueAt(b, 1); RowsValueAt(b, 2); RowsValueAt(b, 3);
    RowsValueAt(b, 4); RowsValueAt(b, 5); RowsValueAt(b, 6); RowsValueAt(b, 7);
    SwappedRowValue(b[0]); SwappedRowValue(b[1]); SwappedRowValue(b[2]); SwappedRowValue(b[3]);
  }

  /** The starting position is balanced. */
  lemma InitialMaterial()
    ensures Material(InitBoard()) == 0
  {
    var b := InitBoard();
    InitBoardSymmetric();
    forall r | 0 <= r < 4
      ensures b[7 - r] == SwappedRow(b[r])
    {
    }
    MirroredBalanced(b);
  }

  // ---------------------------------------------------------------------------
  // The game tree and the search
  // ---------------------------------------------------------------------------

  /** The side to move: White when maximizing. */
  function SideToMove(max: bool): Color
  {
    if max then White else Black
  }

  /** The depth left after one move: depth - 1 for a positive depth. */
  function NextDepth(depth: nat): nat
  {
    if depth == 0 then 0 else depth - 1
  }

  /** The positions the search looks at: the evaluation of the position, and, while
      depth remains, the trees after each legal move of the side to move, in the
      order generate_moves lists them. */
  function GameTree(b: Board, depth: nat, max: bool): (t: Tree)
    ensures t.leaf == Material(b)
    ensures depth == 0 ==> t.children == []
    ensures depth > 0 ==> |t.children| == |LegalMoves(b, SideToMove(max))|
    decreases depth
  {
    if depth == 0 then Node(Material(b), [])
    else
      var ms := LegalMoves(b, SideToMove(max));
      RulesFacts.LegalMovesOnBoard(b, SideToMove(max));
      Node(Material(b), seq(|ms|, k requires 0 <= k < |ms| => GameTree(Apply(b, ms[k]), NextDepth(depth), !max)))
  }

  /** The move an index picks out, if it is in range. */
  function MoveAt(ms: seq<Move>, i: Option<nat>): (r: Option<Move>)
    ensures r.Some? <==> i.Some? && i.value < |ms|
    ensures r.Some? ==> r.value in ms
  {
    if i.Some? && i.value < |ms| then Some(ms[i.value]) else None
  }

  /** With no depth left, or no legal move for the side to move, the search scores
      the position by its material and chooses no move. */
  lemma GameTreeLeaf(b: Board, depth: nat, alpha: ExtInt, beta: ExtInt, max: bool)
    requires depth == 0 || LegalMoves(b, SideToMove(max)) == []
    ensures AlphaBeta(GameTree(b, depth, max), alpha, beta, max) == Outcome(Material(b), None, [])
    ensures MoveAt(LegalMoves(b, SideToMove(max)), AlphaBeta(GameTree(b, depth, max), alpha, beta, max).best) == None
  {
  }

  /** Below the root, the game tree has one child per legal move, in the order the
      moves are generated: the tree of the position after that move, one level less
      deep, with the other side to move. */
  lemma GameTreeExpands(b: Board, depth: nat, max: bool)
    requires depth > 0
    ensures Expands(b, NextDepth(depth), !max, LegalMoves(b, SideToMove(max)), GameTree(b, depth, max))
  {
    var ms := LegalMoves(b, SideToMove(max));
    RulesFacts.LegalMovesOnBoard(b, SideToMove(max));
    var t := GameTree(b, depth, max);
    forall k | 0 <= k < |ms|
      ensures IsChild(b, ms[k], NextDepth(depth), !max, t.children[k])
    {
    }
  }

  /** c is the tree after move m: the position it leads to, searched to the given
      depth with the given side to move. */
  predicate IsChild(b: Board, m: Move, depth: nat, max: bool, c: Tree)
  {
    OnBoard(m.0.0, m.0.1) && OnBoard(m.1.0, m.1.1) && c == GameTree(Apply(b, m), depth, max)
  }

  /** The children of t are the trees after the moves of ms, in order, each searched to
      the given depth with the given side to move. */
  ghost predicate Expands(b: Board, depth: nat, max: bool, ms: seq<Move>, t: Tree)
  {
    |t.children| == |ms|
    && forall k {:trigger IsChild(b, ms[k], depth, max, t.children[k])} ::
         0 <= k < |ms| ==> IsChild(b, ms[k], depth, max, t.children[k])
  }

  // ---------------------------------------------------------------------------
  // The reference: plain minimax on positions
  // ---------------------------------------------------------------------------

  /** The best of a sequence of values for the side to move: the greatest when
      maximizing, the least when minimizing (an infinity for none). */
  function BestOf(vals: seq<int>, max: bool): (r: ExtInt)
    ensures vals == [] ==> r == if max then NegInf else PosInf
    ensures vals != [] ==> r.Fin? && exists i :: 0 <= i < |vals| && vals[i] == r.value
    ensures vals != [] ==> forall i :: 0 <= i < |vals| ==> if max then vals[i] <= r.value else r.value <= vals[i]
  {
    if vals == [] then (if max then NegInf else PosInf)
    else
      var rest := BestOf(vals[..|vals| - 1], max);
      var last := Fin(vals[|vals| - 1]);
      if max then Max(rest, last) else Min(rest, last)
  }

  /** The minimax value of a position searched to a depth: its material when no depth
      is left or the side to move has no legal move, otherwise the best, for the side
      to move, of the values of the positions after its legal moves. */
  ghost function BoardValue(b: Board, depth: nat, max: bool): int
    decreases depth, 1
  {
    var ms := LegalMoves(b, SideToMove(max));
    if depth == 0 || ms == [] then Material(b)
    else
      RulesFacts.LegalMovesOnBoard(b, SideToMove(max));
      BestOf(ChildValues(b, ms, depth, max), max).value
  }

  /** The values of the positions after each move of ms, one level less deep, with
      the other side to move. */
  ghost function ChildValues(b: Board, ms: seq<Move>, depth: nat, max: bool): (vals: seq<int>)
    requires depth > 0 && WithinBoard(ms)
    ensures |vals| == |ms|
    decreases depth, 0
  {
    seq(|ms|, i requires 0 <= i < |ms| => BoardValue(Apply(b, ms[i]), NextDepth(depth), !max))
  }

  /** With depth left and a legal move available, the value of a position is at
      least (maximizing) or at most (minimizing) the value after each legal move,
      and equal to the value after one of them. */
  lemma BoardValueIsBest(b: Board, depth: nat, max: bool)
    requires depth > 0 && LegalMoves(b, SideToMove(max)) != []
    ensures WithinBoard(LegalMoves(b, SideToMove(max)))
    ensures var ms := LegalMoves(b, SideToMove(max));
      forall i :: 0 <= i < |ms| ==>
        var v := BoardValue(Apply(b, ms[i]), NextDepth(depth), !max);
        if max then v <= BoardValue(b, depth, max) else BoardValue(b, depth, max) <= v
    ensures var ms := LegalMoves(b, SideToMove(max));
      exists i :: 0 <= i < |ms| && BoardValue(Apply(b, ms[i]), NextDepth(depth), !max) == BoardValue(b, depth, max)
  {
    BoardValueInner(b, depth, max);
    BestChild(b, depth, max, LegalMoves(b, SideToMove(max)));
  }

  /** The best of the values after the moves of ms bounds each of them and is one of them. */
  lemma BestChild(b: Board, depth: nat, max: bool, ms: seq<Move>)
    requires depth > 0 && WithinBoard(ms) && ms != []
    ensures var best := BestOf(ChildValues(b, ms, depth, max), max).value;
      forall i :: 0 <= i < |ms| ==>
        var v := BoardValue(Apply(b, ms[i]), NextDepth(depth), !max);
        if max then v <= best else best <= v
    ensures var best := BestOf(ChildValues(b, ms, depth, max), max).value;
      exists i :: 0 <= i < |ms| && BoardValue(Apply(b, ms[i]), NextDepth(depth), !max) == best
  {
    var vals := ChildValues(b, ms, depth, max);
    var r := BestOf(vals, max);
    forall i | 0 <= i < |ms|
      ensures var v := BoardValue(Apply(b, ms[i]), NextDepth(depth), !max);
        if max then v <= r.value else r.value <= v
    {
      ChildValueAt(b, ms, depth, max, i);
    }
    var j :| 0 <= j < |vals| && vals[j] == r.value;
    ChildValueAt(b, ms, depth, max, j);
  }

  lemma BoardValueInner(b: Board, depth: nat, max: bool)
    requires depth > 0 && LegalMoves(b, SideToMove(max)) != []
    ensures WithinBoard(LegalMoves(b, SideToMove(max)))
    ensures BoardValue(b, depth, max) == BestOf(ChildValues(b, LegalMoves(b, SideToMove(max)), depth, max), max).value
  {
    RulesFacts.LegalMovesOnBoard(b, SideToMove(max));
  }

  lemma ChildValueAt(b: Board, ms: seq<Move>, depth: nat, max: bool, i: nat)
    requires depth > 0 && WithinBoard(ms) && i < |ms|
    ensures ChildValues(b, ms, depth, max)[i] == BoardValue(Apply(b, ms[i]), NextDepth(depth), !max)
  {
  }

  /** Extreme over the first k children is the best of their values. */
  lemma {:induction false} ExtremeIsBest(t: Tree, vals: seq<int>, k: nat, max: bool)
    requires k <= |vals| == |t.children|
    requires forall i :: 0 <= i < |vals| ==> MinimaxValue(t.children[i], !max) == vals[i]
    ensures Extreme(t, k, max) == BestOf(vals[..k], max)
  {
    if k > 0 {
      ExtremeIsBest(t, vals, k - 1, max);
      assert vals[..k][..k - 1] == vals[..k - 1];
    }
  }

  /** The minimax value of the game tree is the minimax value of the position. */
  lemma {:induction false} GameTreeValue(b: Board, depth: nat, max: bool)
    ensures MinimaxValue(GameTree(b, depth, max), max) == BoardValue(b, depth, max)
    decreases depth
  {
    var ms := LegalMoves(b, SideToMove(max));
    if depth > 0 && ms != [] {
      RulesFacts.LegalMovesOnBoard(b, SideToMove(max));
      var t := GameTree(b, depth, max);
      var vals := ChildValues(b, ms, depth, max);
      GameTreeExpands(b, depth, max);
      forall i | 0 <= i < |vals|
        ensures MinimaxValue(t.children[i], !max) == vals[i]
      {
        assert IsChild(b, ms[i], NextDepth(depth), !max, t.children[i]);
        GameTreeValue(Apply(b, ms[i]), NextDepth(depth), !max);
      }
      ExtremeIsBest(t, vals, |vals|, max);
      assert vals[..|vals|] == vals;
    }
  }

  /** Searched with the full window, as the program searches from the root, the
      engine's score is the minimax value of the position. */
  lemma FullWindowIsMinimax(b: Board, depth: nat, max: bool)
    ensures AlphaBeta(GameTree(b, depth, max), NegInf, PosInf, max).score == BoardValue(b, depth, max)
  {
    AlphaBetaIsMinimax(GameTree(b, depth, max), max);
    GameTreeValue(b, depth, max);
  }

  /** The children a search examined are the positions after the legal moves in the
      order generated, each searched with the window it was given. */
  lemma ExaminedMoves(b: Board, depth: nat, max: bool, ms: seq<Move>, t: Tree, visits: seq<Visit>)
    requires Expands(b, depth, !max, ms, t) && Examined(t, visits, max)
    ensures forall q :: 0 <= q < |visits| ==>
      OnBoard(ms[q].0.0, ms[q].0.1) && OnBoard(ms[q].1.0, ms[q].1.1)
      && visits[q].score == AlphaBeta(GameTree(Apply(b, ms[q]), depth, !max), visits[q].alpha, visits[q].beta, !max).score
  {
    forall q | 0 <= q < |visits|
      ensures OnBoard(ms[q].0.0, ms[q].0.1) && OnBoard(ms[q].1.0, ms[q].1.1)
      ensures visits[q].score == AlphaBeta(GameTree(Apply(b, ms[q]), depth, !max), visits[q].alpha, visits[q].beta, !max).score
    {
      assert IsChild(b, ms[q], depth, !max, t.children[q]);
    }
  }

  /** With depth left and a legal move available, the search chooses a legal move.
      Each move it examined, in the order generated, scored as the search of the
      position after it, with the window in force at that point. The chosen move is
      the first whose score is best among them, and its score is the result. */
  lemma SearchChoosesMove(b: Board, depth: nat, alpha: ExtInt, beta: ExtInt, max: bool)
    requires depth > 0 && LegalMoves(b, SideToMove(max)) != []
    ensures WithinBoard(LegalMoves(b, SideToMove(max)))
    ensures var r := AlphaBeta(GameTree(b, depth, max), alpha, beta, max);
      0 < |r.visits| <= |LegalMoves(b, SideToMove(max))| && r.best.Some? && r.best.value < |r.visits|
      && Leads(r.visits, r.best.value, r.score, max)
    ensures var r := AlphaBeta(GameTree(b, depth, max), alpha, beta, max);
      var ms := LegalMoves(b, SideToMove(max));
      forall q :: 0 <= q < |r.visits| ==>
        r.visits[q].score == AlphaBeta(GameTree(Apply(b, ms[q]), NextDepth(depth), !max), r.visits[q].alpha, r.visits[q].beta, !max).score
    ensures var r := AlphaBeta(GameTree(b, depth, max), alpha, beta, max);
      var ms := LegalMoves(b, SideToMove(max));
      MoveAt(ms, r.best) == Some(ms[r.best.value]) && ms[r.best.value] in ms
  {
    var ms := LegalMoves(b, SideToMove(max));
    RulesFacts.LegalMovesOnBoard(b, SideToMove(max));
    var t := GameTree(b, depth, max);
    var r := AlphaBeta(t, alpha, beta, max);
    AlphaBetaRecord(t, alpha, beta, max);
    GameTreeExpands(b, depth, max);
    ExaminedMoves(b, NextDepth(depth), max, ms, t, r.visits);
  }
}
