/**
 * The board of the chess program: an 8x8 grid of cells. Row 0 is Black's back
 * rank (the top of the screen) and row 7 is White's; column 0 is file 'a'.
 * The program stores each cell as a one-character string (upper case for
 * White, lower case for Black, '.' for an empty square); here a cell is a
 * closed variant, and CharOf / CellOfChar give the character encoding.
 */
module Board {

  datatype Option<+T> = None | Some(value: T)

  datatype Color = White | Black
  datatype Kind = Pawn | Knight | Bishop | Rook | Queen | King
  datatype Cell = Empty | Piece(kind: Kind, color: Color)

  /** (row, column) */
  type Square = (int, int)
  /** (origin, destination) */
  type Move = (Square, Square)

  /** Exactly 8 rows of 8 cells: a board is never partially built. */
  predicate IsGrid(g: seq<seq<Cell>>)
  {
    |g| == 8 && forall r :: 0 <= r < 8 ==> |g[r]| == 8
  }

  type Board = g: seq<seq<Cell>> | IsGrid(g) witness seq(8, _ => seq(8, _ => Empty))

  predicate OnBoard(row: int, col: int)
  {
    0 <= row < 8 && 0 <= col < 8
  }

  function At(b: Board, s: Square): Cell
    requires OnBoard(s.0, s.1)
  {
    b[s.0][s.1]
  }

  /** The board with one cell replaced (a fresh value; `b` itself is unchanged). */
  function Put(b: Board, s: Square, x: Cell): (r: Board)
    requires OnBoard(s.0, s.1)
    ensures forall i, j :: OnBoard(i, j) ==> r[i][j] == if (i, j) == s then x else b[i][j]
  {
    b[s.0 := b[s.0][s.1 := x]]
  }

  function Opponent(c: Color): (o: Color)
    ensures o != c
  {
    if c == White then Black else White
  }

  /** The owner of a cell; an empty cell has none. How this follows the case of the
      stored character is EncodingRoundTrip. */
  function PieceColor(x: Cell): Option<Color>
  {
    if x.Empty? then None else Some(x.color)
  }

  // ---------------------------------------------------------------------------
  // Character encoding
  // ---------------------------------------------------------------------------

  function Letter(k: Kind): char
  {
    match k
    case Pawn => 'P'
    case Knight => 'N'
    case Bishop => 'B'
    case Rook => 'R'
    case Queen => 'Q'
    case King => 'K'
  }

  /** The character the program stores for a cell. */
  function CharOf(x: Cell): char
  {
    match x
    case Empty => '.'
    case Piece(k, White) => Letter(k)
    case Piece(k, Black) => (Letter(k) as int + 32) as char
  }

  /** The cell a stored character stands for; None for any other character. */
  function CellOfChar(ch: char): Option<Cell>
  {
    match ch
    case '.' => Some(Empty)
    case 'P' => Some(Piece(Pawn, White))
    case 'N' => Some(Piece(Knight, White))
    case 'B' => Some(Piece(Bishop, White))
    case 'R' => Some(Piece(Rook, White))
    case 'Q' => Some(Piece(Queen, White))
    case 'K' => Some(Piece(King, White))
    case 'p' => Some(Piece(Pawn, Black))
    case 'n' => Some(Piece(Knight, Black))
    case 'b' => Some(Piece(Bishop, Black))
    case 'r' => Some(Piece(Rook, Black))
    case 'q' => Some(Piece(Queen, Black))
    case 'k' => Some(Piece(King, Black))
    case _ => None
  }

  /** The encoding is faithful both ways, and the owner of a piece is read off its
      case: '.' has none, an upper-case letter is White's, a lower-case one Black's. */
  lemma EncodingRoundTrip(x: Cell, ch: char)
    ensures CellOfChar(CharOf(x)) == Some(x)
    ensures CellOfChar(ch).Some? ==> CharOf(CellOfChar(ch).value) == ch
    ensures PieceColor(x).None? <==> CharOf(x) == '.'
    ensures PieceColor(x) == Some(White) <==> 'A' <= CharOf(x) <= 'Z'
    ensures PieceColor(x) == Some(Black) <==> 'a' <= CharOf(x) <= 'z'
  {
  }

  // ---------------------------------------------------------------------------
  // Piece values (the table shared with the evaluator)
  // ---------------------------------------------------------------------------

  /** The value table keyed by the stored character; characters outside it are worth 0. */
  function ValueOfChar(ch: char): int
  {
    match ch
    case 'P' => 1
    case 'N' => 3
    case 'B' => 3
    case 'R' => 5
    case 'Q' => 9
    case 'K' => 1000
    case 'p' => -1
    case 'n' => -3
    case 'b' => -3
    case 'r' => -5
    case 'q' => -9
    case 'k' => -1000
    case _ => 0
  }

  function PieceValue(x: Cell): int
  {
    ValueOfChar(CharOf(x))
  }

  /** An empty cell is worth nothing, a White piece is worth something positive, and a
      Black piece is worth exactly the negation of its White counterpart. */
  lemma PieceValueSymmetry(k: Kind)
    ensures PieceValue(Empty) == 0
    ensures PieceValue(Piece(k, White)) > 0
    ensures PieceValue(Piece(k, Black)) == -PieceValue(Piece(k, White))
  {
  }

  // ---------------------------------------------------------------------------
  // The starting position
  // ---------------------------------------------------------------------------

  const BackRank: seq<Kind> := [Rook, Knight, Bishop, Queen, King, Bishop, Knight, Rook]

  /** The starting position as the program writes it, one string per row. */
  const InitialRows: seq<string> := [
    "rnbqkbnr",
    "pppppppp",
    "........",
    "........",
    "........",
    "........",
    "PPPPPPPP",
    "RNBQKBNR"
  ]

  /** The cell on (r, c) at the start: the back ranks, a rank of pawns in front of
      each, and empty ranks between them. */
  function StartCell(r: int, c: int): Cell
    requires 0 <= c < 8
  {
    if r == 0 then Piece(BackRank[c], Black)
    else if r == 1 then Piece(Pawn, Black)
    else if r == 6 then Piece(Pawn, White)
    else if r == 7 then Piece(BackRank[c], White)
    else Empty
  }

  function InitBoard(): (b: Board)
    ensures forall r, c :: OnBoard(r, c) ==> CharOf(b[r][c]) == InitialRows[r][c]
  {
    var b := seq(8, r => seq(8, c requires 0 <= c < 8 => StartCell(r, c)));
    assert forall c :: 0 <= c < 8 ==> CharOf(b[0][c]) == InitialRows[0][c] by {
      assert InitialRows[0] == ['r', 'n', 'b', 'q', 'k', 'b', 'n', 'r'];
    }
    assert forall c :: 0 <= c < 8 ==> CharOf(b[7][c]) == InitialRows[7][c] by {
      assert InitialRows[7] == ['R', 'N', 'B', 'Q', 'K', 'B', 'N', 'R'];
    }
    b
  }

  /** The colour-swapped cell. */
  function Swapped(x: Cell): Cell
  {
    if x.Empty? then Empty else Piece(x.kind, Opponent(x.color))
  }

  /** The starting position is symmetric: row r mirrors row 7 - r with colours swapped. */
  lemma InitBoardSymmetric()
    ensures forall r, c :: OnBoard(r, c) ==> InitBoard()[7 - r][c] == Swapped(InitBoard()[r][c])
  {
  }
}
