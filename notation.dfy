/**
 * Algebraic notation: a square (row, column) is written as its file letter
 * ('a' for column 0) followed by its rank (8 for row 0), so (6, 4) is "e2",
 * and a move as its two squares, so ((6, 4), (4, 4)) is "e2e4".
 */
module Notation {
  import opened Board

  predicate IsDigit(ch: char)
  {
    '0' <= ch <= '9'
  }

  function DigitChar(d: nat): (ch: char)
    requires d < 10
    ensures IsDigit(ch)
  {
    ('0' as int + d) as char
  }

  function DigitValue(ch: char): nat
    requires IsDigit(ch)
  {
    ch as int - '0' as int
  }

  /** The decimal numeral of n, most significant digit first. */
  function NatText(n: nat): (s: string)
    ensures |s| >= 1 && forall k :: 0 <= k < |s| ==> IsDigit(s[k])
    ensures n < 10 <==> |s| == 1
  {
    if n < 10 then [DigitChar(n)] else NatText(n / 10) + [DigitChar(n % 10)]
  }

  /** The decimal numeral of an integer, with a leading '-' when it is negative. */
  function IntText(n: int): string
  {
    if n < 0 then "-" + NatText(-n) else NatText(n)
  }

  /** Reading a one-digit numeral gives back its value. */
  lemma DigitRoundTrip(d: nat, ch: char)
    requires d < 10
    ensures DigitValue(DigitChar(d)) == d
    ensures IsDigit(ch) ==> DigitChar(DigitValue(ch)) == ch && IntText(DigitValue(ch)) == [ch]
  {
  }

  /** index_to_algebraic: the character `col` places after 'a', then the numeral of
      8 - row. Off the board the rank can be 0, 9, negative or longer. */
  function IndexToAlgebraic(row: int, col: int): (s: string)
    requires 0 <= col + 'a' as int < 0xD800
    ensures |s| >= 2 && s[0] as int == col + 'a' as int
    ensures OnBoard(row, col) ==> |s| == 2 && 'a' <= s[0] <= 'h' && '1' <= s[1] <= '8'
  {
    [(col + 'a' as int) as char] + IntText(8 - row)
  }

  /** algebraic_to_index: reads the first two characters (the rest is ignored). The
      program fails on a string shorter than two characters or whose second character
      is not a digit; here those give None. */
  function AlgebraicToIndex(s: string): (r: Option<Square>)
    ensures r.None? <==> |s| < 2 || !IsDigit(s[1])
  {
    if |s| < 2 || !IsDigit(s[1]) then None
    else Some((8 - DigitValue(s[1]), s[0] as int - 'a' as int))
  }

  /** Every square of the board reads back from its name. */
  lemma SquareNameRoundTrip(row: int, col: int)
    requires OnBoard(row, col)
    ensures AlgebraicToIndex(IndexToAlgebraic(row, col)) == Some((row, col))
  {
    var s := IndexToAlgebraic(row, col);
    assert s[1] == DigitChar(8 - row);
    DigitRoundTrip(8 - row, s[1]);
  }

  /** Every two-character name with a digit for its rank is the name of what it reads
      as, on the board or not. */
  lemma NameSquareRoundTrip(s: string)
    requires |s| == 2 && IsDigit(s[1]) && s[0] as int < 0xD800
    ensures AlgebraicToIndex(s).Some?
    ensures IndexToAlgebraic(AlgebraicToIndex(s).value.0, AlgebraicToIndex(s).value.1) == s
  {
    DigitRoundTrip(0, s[1]);
    var t := IndexToAlgebraic(AlgebraicToIndex(s).value.0, AlgebraicToIndex(s).value.1);
    assert t == [s[0]] + [s[1]];
  }

  /** get_move_string: the names of the two squares, one after the other. */
  function MoveString(m: Move): (s: string)
    requires 0 <= m.0.1 + 'a' as int < 0xD800 && 0 <= m.1.1 + 'a' as int < 0xD800
    ensures OnBoard(m.0.0, m.0.1) && OnBoard(m.1.0, m.1.1) ==> |s| == 4
  {
    IndexToAlgebraic(m.0.0, m.0.1) + IndexToAlgebraic(m.1.0, m.1.1)
  }

  /** The outcome of reading a typed move: too short (the program returns None), a
      rank that is not a digit (the program raises an error), or the move. */
  datatype MoveText = TooShort | BadRank | Parsed(m: Move)

  /** ASCII lower-casing of one character. */
  function Lower(ch: char): char
  {
    if 'A' <= ch <= 'Z' then (ch as int + 32) as char else ch
  }

  /** The parse step of user_move_text, on the text after surrounding blanks are
      removed: file letters in either case, ranks as single digits, and anything after
      the fourth character ignored. */
  function ParseMoveText(text: string): (r: MoveText)
    ensures r == TooShort <==> |text| < 4
    ensures r == BadRank <==> |text| >= 4 && !(IsDigit(text[1]) && IsDigit(text[3]))
  {
    if |text| < 4 then TooShort
    else if !IsDigit(text[1]) || !IsDigit(text[3]) then BadRank
    else
      Parsed(((8 - DigitValue(text[1]), Lower(text[0]) as int - 'a' as int),
              (8 - DigitValue(text[3]), Lower(text[2]) as int - 'a' as int)))
  }

  /** The case of the file letters does not matter: replacing text[0] and text[2] by
      any characters with the same lower case (such as 'E' for 'e') reads the same. */
  lemma ParseIgnoresFileCase(text: string, f1: char, f2: char)
    requires |text| >= 4 && Lower(f1) == Lower(text[0]) && Lower(f2) == Lower(text[2])
    ensures ParseMoveText(text[0 := f1][2 := f2]) == ParseMoveText(text)
    ensures 'a' <= text[0] <= 'z' ==> ParseMoveText(text[0 := (text[0] as int - 32) as char]) == ParseMoveText(text)
  {
    var t := text[0 := f1][2 := f2];
    assert t[1] == text[1] && t[3] == text[3];
    if 'a' <= text[0] <= 'z' {
      var u := text[0 := (text[0] as int - 32) as char];
      assert u[1] == text[1] && u[2] == text[2] && u[3] == text[3];
    }
  }

  /** Typing a move reads as the square names of its two halves. */
  lemma ParseAgreesWithSquares(text: string)
    requires |text| >= 4 && IsDigit(text[1]) && IsDigit(text[3])
    requires !('A' <= text[0] <= 'Z') && !('A' <= text[2] <= 'Z')
    ensures ParseMoveText(text) == Parsed((AlgebraicToIndex(text[..2]).value, AlgebraicToIndex(text[2..]).value))
  {
  }

  /** Every move between squares of the board reads back from its move string. */
  lemma MoveStringRoundTrip(m: Move)
    requires OnBoard(m.0.0, m.0.1) && OnBoard(m.1.0, m.1.1)
    ensures ParseMoveText(MoveString(m)) == Parsed(m)
  {
    var s := MoveString(m);
    SquareNameRoundTrip(m.0.0, m.0.1);
    SquareNameRoundTrip(m.1.0, m.1.1);
    assert s[..2] == IndexToAlgebraic(m.0.0, m.0.1);
    assert s[2..] == IndexToAlgebraic(m.1.0, m.1.1);
  }

  /** The examples the program documents. */
  lemma DocumentedExamples()
    ensures AlgebraicToIndex("e2") == Some((6, 4))
    ensures IndexToAlgebraic(6, 4) == "e2"
    ensures MoveString(((6, 4), (4, 4))) == "e2e4"
    ensures ParseMoveText("E2E4") == Parsed(((6, 4), (4, 4)))
  {
    assert NatText(2) == "2";
    assert NatText(4) == "4";
  }
}
