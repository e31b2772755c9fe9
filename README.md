# Chess rules and search engine, modelled in Dafny

This project models the rules engine and the computer player of a small Python chess
program: the 8x8 board, the two move generators, executing a move, check detection,
the end-of-game test, square notation, the material evaluation, and the fixed-depth
alpha-beta minimax.

The model has these modules:

- `Board` (board.dfy): cells, squares, moves and the board.
  - A cell is `Empty` or `Piece(kind, color)`. A board is 8 rows of 8 cells.
  - Row 0 is Black's back rank and column 0 is file `a`.
  - The program's one-character encoding is `CharOf`/`CellOfChar`, and the piece-value table is keyed by that character.
  - The starting position.
- `Rules` (rules.dfy): the rules as functions.
  - The per-piece moves, and the row-major board scan `ScanFrom`. With `attacks = false` the scan is the candidate phase of `generate_moves`; with `attacks = true` it is `generate_pseudo_legal_moves`.
  - `Apply` is `make_move`, on a value: the copy the program takes is implicit.
  - `InCheck` is `is_in_check`, and `LegalMoves` is the filtered list.
- `Game` (game.py's imperative code): methods with the program's loops.
  - Nested square loops, ray loops that stop at the edge or at the first occupied square, and the copy updated cell by cell.
  - The king search with its early exits, the search for an attack on the king, and the legality filter.
  - Each method is proved to compute the `Rules` function that specifies it.
- `RulesFacts`: what the rules guarantee.
  - The effect of a move, and that promotion only ever makes queens.
  - Castling: when it is offered and what it does.
  - The legal moves are exactly the safe candidates, in order.
  - What check means, and that every capture is also an attack.
- `Notation`: `index_to_algebraic`, `algebraic_to_index`, `get_move_string`, and the parse step of `user_move_text`, with their round trips.
- `Search`: alpha-beta over an abstract game tree, as the engine runs it.
  - The children are searched in order.
  - A running best starts at an infinity and is replaced only by a strictly better score.
  - The window narrows after each child, with a cutoff as soon as `beta <= alpha`.
  - It is proved fail-soft with respect to plain minimax. With the full window it equals minimax.
  - It records which children it examined, with which windows, and which one it chose.
- `Evaluation`: the material evaluation, the game tree of a position (one child per legal move, in generation order) and the minimax value of a position.
- `Engine` (engine.py): `evaluate_board` and `minimax` as methods.
  - `Minimax` is proved to return the abstract search of the game tree, both the score and the chosen move.
  - The lemmas of `Evaluation` and `Search` then give its meaning.
- `Positions`: concrete positions, each described cell by cell, and the general facts about rays and jumps they rest on.
  - The starting position, where White has exactly twenty legal moves: sixteen pawn moves in column order, then four knight moves.
  - A checkmate: Black king on a8, White queen on b7, White king on c6.
  - A stalemate: Black king on a8, White queen on c7, White king on a6.
  - Together they show that `is_game_over` can give each of its three answers.

The infinities that `minimax` starts from are the datatype `ExtInt` (`NegInf | Fin(int) | PosInf`).

The attack generator (`generate_pseudo_legal_moves`, game.py:218-220) lists a pawn's push to the empty square in front of it as well as its diagonal captures. A push only reaches an empty square, so it never lands on a king and does not change check detection.

## Model

| member | source | states |
|---|---|---|
| Board.Put | Chess_Game_in_Python/src/game.py:158-159 | assigning one cell of the copy changes that cell only |
| Board.Opponent | Chess_Game_in_Python/src/game.py:33-34 | the opponent is the other colour |
| Board.EncodingRoundTrip | Chess_Game_in_Python/src/game.py:28-31 | the character encoding is faithful both ways; a cell has no colour exactly when its character is '.', it is White exactly when the character is upper case and Black exactly when it is lower case |
| Board.PieceValueSymmetry | Chess_Game_in_Python/src/game.py:4-8 | an empty cell is worth 0, a White piece something positive, and a Black piece the negation of its White counterpart |
| Board.InitBoard | Chess_Game_in_Python/src/game.py:10-22 | every cell holds the character of the starting position as the program writes it |
| Board.InitBoardSymmetric | Chess_Game_in_Python/src/game.py:10-22 | row 7 - r of the starting position is row r with the colours swapped |
| Rules.SquareMovesOfOther | Chess_Game_in_Python/src/game.py:52-54 | a square without a piece of the side to move contributes no move |
| Rules.SafeOnlyMember | Chess_Game_in_Python/src/game.py:147-152 | the filter keeps a move exactly when it is in the list and does not leave the mover in check |
| Rules.NoLegalMoves | Chess_Game_in_Python/src/game.py:147-152 | there is no legal move exactly when every candidate leaves the mover in check |
| Rules.KingFrom | Chess_Game_in_Python/src/game.py:180-188 | a square the king search finds holds the king of that colour |
| Rules.RayLands | Chess_Game_in_Python/src/game.py:84-95 | every move of a ray starts on the piece's square and lands on the board; in move mode the square is empty or holds an opponent's piece |
| Rules.RaysLands | Chess_Game_in_Python/src/game.py:81-127 | the same for all the rays of a bishop, rook or queen |
| Rules.StepsLands | Chess_Game_in_Python/src/game.py:73-79 | the same for knight jumps and king steps |
| Rules.PawnLands | Chess_Game_in_Python/src/game.py:57-71 | the same for pawn pushes and captures, in both generators |
| Rules.CastlesLand | Chess_Game_in_Python/src/game.py:136-145 | castlings start on the king's square and land on an empty square of the board |
| Rules.SquareMovesLands | Chess_Game_in_Python/src/game.py:52-145 | the moves generated for a square start there and land on the board (on an open square in move mode), and exist only when it holds a piece of the side to move |
| Rules.ScanFromLands | Chess_Game_in_Python/src/game.py:50-145 | every generated move starts on a piece of the side to move and lands on the board; every candidate lands on an empty or opponent-held square |
| Game.AddRay | Chess_Game_in_Python/src/game.py:83-95 | the ray loop appends exactly the ray: the empty squares passed, then the first occupied square when an opponent holds it (move mode) or whatever holds it (attack mode, game.py:234-242) |
| Game.AddRays | Chess_Game_in_Python/src/game.py:81-95 | the direction loop appends the rays one direction after another |
| Game.AddSteps | Chess_Game_in_Python/src/game.py:73-79 | the jump loop appends the on-board jumps, only to open squares in move mode |
| Game.AddPawnTake | Chess_Game_in_Python/src/game.py:66-71 | step of `AddPieceMoves`: a diagonal is appended exactly when it is on the board and holds an opponent's piece |
| Game.AddPawnMoves | Chess_Game_in_Python/src/game.py:57-71 | step of `AddPieceMoves`: appends the single push, the double push from the home rank through two empty squares, then the two captures |
| Game.AddPawnAttacks | Chess_Game_in_Python/src/game.py:215-226 | step of `AddPieceMoves`: appends the push to an empty square and the captures, only when the square ahead is on the board |
| Game.AddCastles | Chess_Game_in_Python/src/game.py:136-145 | step of `AddPieceMoves`: appends the castlings the simplified rule allows |
| Game.AddPieceMoves | Chess_Game_in_Python/src/game.py:56-145 | dispatches on the piece kind and appends exactly that piece's moves |
| Game.ScanRow | Chess_Game_in_Python/src/game.py:51-54 | the inner loop over a row adds that row's moves to the list |
| Game.ScanBoard | Chess_Game_in_Python/src/game.py:50-55 | the nested loops produce every piece's moves in row-major order |
| Game.GeneratePseudoLegalMoves | Chess_Game_in_Python/src/game.py:199-270 | returns the attack moves of the side |
| Game.MakeMove | Chess_Game_in_Python/src/game.py:154-177 | the copy updated step by step is the moved board (`Rules.Apply`); the input board is a value and is unchanged |
| Game.FindKingInRow | Chess_Game_in_Python/src/game.py:183-186 | the inner loop stops at the first king in the row, or reports that the search goes on to the next row |
| Game.IsInCheck | Chess_Game_in_Python/src/game.py:179-197 | returns `InCheck`: true without a king, otherwise whether an opponent attack ends on the first king found |
| Game.EndsOn | Chess_Game_in_Python/src/game.py:194-197 | true exactly when some move of the list ends on the square |
| Game.KeepSafe | Chess_Game_in_Python/src/game.py:147-152 | keeps, in order, the moves after which the mover is not in check |
| Game.GenerateMoves | Chess_Game_in_Python/src/game.py:40-152 | returns the legal moves: the candidates filtered by the check test |
| Game.IsGameOver | Chess_Game_in_Python/src/game.py:272-279 | the game is over exactly when there is no legal move; then checkmate if in check and stalemate otherwise, and no reason while play goes on; the verdict is `Rules.Outcome` |
| RulesFacts.PromotionOnlyPawns | Chess_Game_in_Python/src/game.py:161-165 | only a pawn reaching its far rank changes, it becomes a queen, and it keeps its colour |
| RulesFacts.ApplyOrdinary | Chess_Game_in_Python/src/game.py:154-165 | an ordinary move empties the origin, puts the (possibly promoted) piece on the destination, and changes no other square |
| RulesFacts.ApplyCastling | Chess_Game_in_Python/src/game.py:167-177 | a two-column king move also moves the corner cell next to the king, on the origin's side; the corner is emptied and no other square changes |
| RulesFacts.ScanFromMember | Chess_Game_in_Python/src/game.py:50-145 | a move is in the scan from a square exactly when it is a move of its origin and that origin comes at or after the square |
| RulesFacts.CandidateMember | Chess_Game_in_Python/src/game.py:50-145 | a move is a candidate, or an attack, exactly when it is a move of the piece on its origin |
| RulesFacts.LegalMovesSound | Chess_Game_in_Python/src/game.py:147-152 | a move is legal exactly when it is a candidate that does not leave the mover in check; every legal move starts on the mover's piece, lands on an empty or opponent-held square, and so moves to a different square |
| RulesFacts.LegalMovesOnBoard | Chess_Game_in_Python/src/game.py:40-152 | both squares of every legal move are on the board |
| RulesFacts.KingMoves | Chess_Game_in_Python/src/game.py:129-145 | proof step: a king's moves are its steps, then its castlings in move mode |
| RulesFacts.KingStepsOneColumn | Chess_Game_in_Python/src/game.py:130-135 | a king step changes the column by at most one |
| RulesFacts.CastlesShape | Chess_Game_in_Python/src/game.py:136-145 | a castling starts on the king's home square and has room: king at home, the same-coloured rook in the corner, the squares between empty |
| RulesFacts.CastlingOffered | Chess_Game_in_Python/src/game.py:136-145 | the only two-column king candidates are castlings from the home square with room to castle |
| RulesFacts.CastlingAvailable | Chess_Game_in_Python/src/game.py:136-145 | whenever there is room to castle, the castling is a candidate |
| RulesFacts.KingFromFinds | Chess_Game_in_Python/src/game.py:180-188 | the king search finds nothing exactly when there is no king; otherwise it finds the first king in row-major order |
| RulesFacts.InCheckMeaning | Chess_Game_in_Python/src/game.py:179-197 | a side without a king is in check; otherwise it is in check exactly when an opponent attack ends on its (first) king |
| RulesFacts.RayWithinAttacks | Chess_Game_in_Python/src/game.py:232-242 | a ray move of the generator is also in the attack generator's ray |
| RulesFacts.RaysWithinAttacks | Chess_Game_in_Python/src/game.py:232-264 | the same for all rays of a piece |
| RulesFacts.StepsWithinAttacks | Chess_Game_in_Python/src/game.py:227-231 | a jump of the generator is also an attack jump |
| RulesFacts.SquareCaptureIsAttack | Chess_Game_in_Python/src/game.py:209-269 | a capture a piece could make is one of its attacks |
| RulesFacts.CapturesAreAttacks | Chess_Game_in_Python/src/game.py:199-270 | every candidate capture is an attack, so a king that could be taken is seen as in check |
| Notation.NatText | Chess_Game_in_Python/src/game.py:303 | a numeral is a non-empty string of digits, a single digit exactly below 10 |
| Notation.DigitRoundTrip | Chess_Game_in_Python/src/game.py:293 | reading a one-digit numeral gives back its value and the other way round |
| Notation.IndexToAlgebraic | Chess_Game_in_Python/src/game.py:298-303 | the name starts with the file character; on the board it is a letter a-h followed by a digit 1-8 |
| Notation.AlgebraicToIndex | Chess_Game_in_Python/src/game.py:291-295 | reading a name fails exactly when it is shorter than two characters or its rank is not a digit |
| Notation.SquareNameRoundTrip | Chess_Game_in_Python/src/game.py:291-303 | every square of the board reads back from its name |
| Notation.NameSquareRoundTrip | Chess_Game_in_Python/src/game.py:291-303 | every two-character name with a digit rank is the name of what it reads as |
| Notation.MoveString | Chess_Game_in_Python/src/game.py:306-313 | a move between squares of the board has a four-character name |
| Notation.ParseIgnoresFileCase | Chess_Game_in_Python/src/game.py:286-287 | the file letters may be typed in either case: replacing them by characters with the same lower case, such as 'E' for 'e', reads the same move |
| Notation.ParseMoveText | Chess_Game_in_Python/src/game.py:284-288 | too short exactly below four characters, a bad rank exactly when a rank is not a digit, otherwise the two squares |
| Notation.ParseAgreesWithSquares | Chess_Game_in_Python/src/game.py:284-295 | a typed move reads as the square names of its two halves |
| Notation.MoveStringRoundTrip | Chess_Game_in_Python/src/game.py:306-313 | every move between squares of the board reads back from its move string |
| Notation.DocumentedExamples | Chess_Game_in_Python/src/game.py:291-313 | 'e2' is (6, 4), (6, 4) is 'e2', ((6, 4), (4, 4)) is 'e2e4', and typing 'E2E4' gives that move |
| Search.Max | Chess_Game_in_Python/src/engine.py:25 | the larger of the two, with the infinities ordered around the integers |
| Search.Min | Chess_Game_in_Python/src/engine.py:37 | the smaller of the two |
| Search.ScanStep | Chess_Game_in_Python/src/engine.py:19-28 | proof step: one turn of the loop: searches the child, keeps a strictly better score as the best, narrows the window, and stops when beta <= alpha |
| Search.After | Chess_Game_in_Python/src/engine.py:25-38 | a child raises alpha to its score (maximizing) or lowers beta (minimizing) and leaves the other end alone |
| Search.ExtremeMonotone | Chess_Game_in_Python/src/engine.py:17-28 | the best over more children is at least as good |
| Search.AlphaBetaFailSoft | Chess_Game_in_Python/src/engine.py:10-40 | with an open window the score is fail-soft: at or below alpha it bounds the minimax value from above, at or above beta from below, and strictly inside it is exact |
| Search.ScanFailSoftMax | Chess_Game_in_Python/src/engine.py:17-28 | the maximizing loop keeps the fail-soft relation with the best of the children seen |
| Search.ScanFailSoftMin | Chess_Game_in_Python/src/engine.py:29-40 | the minimizing loop, mirrored |
| Search.AlphaBetaIsMinimax | Chess_Game_in_Python/src/engine.py:10-40 | with the full window the search returns exactly the minimax value |
| Search.LeadsExtend | Chess_Game_in_Python/src/engine.py:22-24 | the strict comparison keeps as best the earliest child with the best score |
| Search.RecordExtend | Chess_Game_in_Python/src/engine.py:19-28 | each child is searched with the window the previous one left, which was still open |
| Search.ScanRecord | Chess_Game_in_Python/src/engine.py:17-28 | the loop's result records what it did: the children examined from the first on, with their windows and scores, the chosen child and its score, and a cutoff only on a closed window |
| Search.AlphaBetaRecord | Chess_Game_in_Python/src/engine.py:13-40 | a leaf scores its evaluation and chooses nothing; an inner node examines at least one child, returns the best examined score, chooses the earliest child reaching it, and stops early only when beta <= alpha |
| Evaluation.RowValuePut | Chess_Game_in_Python/src/engine.py:5-7 | replacing a cell changes the row's value by the difference of the two cells |
| Evaluation.RowsValuePut | Chess_Game_in_Python/src/engine.py:5-7 | replacing a row changes the total by the difference of the two rows |
| Evaluation.MaterialPut | Chess_Game_in_Python/src/engine.py:3-8 | replacing one cell changes the evaluation by the difference of the two cells |
| Evaluation.MaterialAfterMove | Chess_Game_in_Python/src/game.py:154-165 | an ordinary move changes the material by the captured piece and the promotion gain only |
| Evaluation.SwappedRowValue | Chess_Game_in_Python/src/engine.py:5-7 | swapping the colours of a row negates its value |
| Evaluation.SwappedMaterial | Chess_Game_in_Python/src/engine.py:3-8 | swapping every piece's colour negates the evaluation: it favours neither side |
| Evaluation.MirroredBalanced | Chess_Game_in_Python/src/engine.py:3-8 | a board whose halves mirror each other with the colours swapped evaluates to 0 |
| Evaluation.InitialMaterial | Chess_Game_in_Python/src/game.py:10-22 | the starting position evaluates to 0 |
| Evaluation.GameTree | Chess_Game_in_Python/src/engine.py:10-40 | the tree the search explores: the position's evaluation, and, while depth remains, one child per legal move in generation order |
| Evaluation.MoveAt | Chess_Game_in_Python/src/engine.py:24 | the move the chosen index names, which is one of the legal moves |
| Evaluation.GameTreeLeaf | Chess_Game_in_Python/src/engine.py:13-14 | with no depth or no legal move the search scores the evaluation and chooses no move |
| Evaluation.GameTreeExpands | Chess_Game_in_Python/src/engine.py:19-21 | child k is the position after legal move k, one level less deep, with the other side to move |
| Evaluation.BestOf | Chess_Game_in_Python/src/engine.py:17-24 | the best value for the side to move is one of the values and bounds all of them |
| Evaluation.BoardValueIsBest | Chess_Game_in_Python/src/engine.py:10-40 | the minimax value of a position with moves is at least (or at most) the value after each legal move and equal to one of them |
| Evaluation.GameTreeValue | Chess_Game_in_Python/src/engine.py:10-40 | the minimax value of the game tree is the minimax value of the position |
| Evaluation.FullWindowIsMinimax | Chess_Game_in_Python/src/main.py:58 | the program's root call, with the window (-inf, +inf), scores the minimax value of the position |
| Evaluation.ExaminedMoves | Chess_Game_in_Python/src/engine.py:19-21 | every examined child is the search of the position after the corresponding legal move, with the window it was given |
| Evaluation.SearchChoosesMove | Chess_Game_in_Python/src/engine.py:16-40 | with depth and a legal move, a legal move is chosen; it is the earliest with the best examined score, that score is the result and it bounds every examined score; each examined score is the search of the position after that move |
| Engine.EvaluateBoard | Chess_Game_in_Python/src/engine.py:3-8 | the nested loop returns the material: the sum of every cell's value |
| Engine.AddRow | Chess_Game_in_Python/src/engine.py:5-7 | the inner loop adds the row's value to the running score |
| Engine.Minimax | Chess_Game_in_Python/src/engine.py:10-40 | the score and the move are those of the alpha-beta search of the game tree; the move is the legal move at the chosen index |
| Engine.SearchChild | Chess_Game_in_Python/src/engine.py:20-21 | the recursive call on the position after move k returns the search of child k |
| Engine.SearchMoves | Chess_Game_in_Python/src/engine.py:16-40 | the loop over the legal moves returns the node's search score and the move at the chosen index |
| Positions.RayBeyond | Chess_Game_in_Python/src/game.py:84-95 | every square a ray reaches past p lies beyond p on the same rank, file or diagonal, on the side the direction points to |
| Positions.RaysSound | Chess_Game_in_Python/src/game.py:81-127 | every move of a sliding piece lies on one of its rays |
| Positions.RayInRays | Chess_Game_in_Python/src/game.py:81-127 | every move on one of its rays is a move of the sliding piece |
| Positions.StepsComplete | Chess_Game_in_Python/src/game.py:73-79 | every jump that stays on the board is generated, in move mode when it lands on an empty or opponent-held square |
| Positions.BlockedRays | Chess_Game_in_Python/src/game.py:83-95 | a sliding piece whose first square in every direction is off the board or held by its own side has no move |
| Positions.BlockedSteps | Chess_Game_in_Python/src/game.py:73-79 | a knight or king whose every jump is off the board or onto its own side has no move |
| Positions.LoneKingMoves | Chess_Game_in_Python/src/game.py:129-135 | a king that is its side's only piece, away from its home square, only steps to a neighbouring square of the board |
| Positions.RowsVacant | Chess_Game_in_Python/src/game.py:50-54 | rows holding no piece of the side to move add nothing to the scan |
| Positions.PawnOpeningShape | Chess_Game_in_Python/src/game.py:57-64 | each listed pawn opening moves a pawn of row 6 straight ahead by one or two squares |
| Positions.StartCandidates | Chess_Game_in_Python/src/game.py:40-145 | at the start White's candidates are the two pushes of each pawn, column by column, then the four knight jumps |
| Positions.QuietMoveSafe | Chess_Game_in_Python/src/game.py:147-152 | at the start, a move from the home ranks to row 4 or 5 that is not a king move leaves White out of check |
| Positions.SafeOnlyKeepsAll | Chess_Game_in_Python/src/game.py:147-152 | a list of moves that all pass the check test is kept whole and in order |
| Positions.StartPosition | Chess_Game_in_Python/src/game.py:40-152 | on any board laid out as the starting position, White's legal moves are exactly the twenty openings in generation order, and the game is not over |
| Positions.InitialPosition | Chess_Game_in_Python/src/game.py:10-22 | the same for the board `init_board` builds |
| Positions.CheckmateExample | Chess_Game_in_Python/src/game.py:272-279 | with the Black king on a8, a White queen on b7 and the White king on c6, Black is in check and has no legal move, so the verdict is checkmate |
| Positions.CheckmateBoard | Chess_Game_in_Python/src/game.py:272-279 | that position exists, and the verdict on it is checkmate |
| Positions.StalemateExample | Chess_Game_in_Python/src/game.py:272-279 | with the Black king on a8, a White queen on c7 and the White king on a6, Black is not in check and has no legal move, so the verdict is stalemate |
| Positions.StalemateBoard | Chess_Game_in_Python/src/game.py:272-279 | that position exists, and the verdict on it is stalemate |

## Left out

- The user interface, the game loop, configuration and the move-history window (ui.py, main.py, move_history_window.py): they are I/O and threads. Only main.py's root call is used, as the full window in `Evaluation.FullWindowIsMinimax`.
- The `input()` call and the stripping of blanks in `user_move_text`: `Notation.ParseMoveText` takes the text after stripping.
- Notation.ParseMoveText: only ASCII digits are read as ranks, while Python's `int` also accepts other Unicode digits. Lower-casing is ASCII only. A rank that is not a digit is the value `BadRank`, where the program raises an exception.
- Notation.AlgebraicToIndex: only ASCII digits are read as ranks. Python's `int` also reads other Unicode decimal digits, so the program reads "a٣" as (5, 0) where the model gives `None`. Where the program raises `IndexError` (fewer than two characters) or `ValueError` (a rank that is not a digit), the model gives `None`.
- Notation.IndexToAlgebraic: requires the file character to be below U+D800, because Dafny characters exclude surrogates. The program accepts any code point `chr` accepts.
- Game.MakeMove: requires both squares on the board. The program would wrap a negative index around or fail. Every generated move is on the board (`RulesFacts.LegalMovesOnBoard`).
- RulesFacts.ApplyCastling: excludes the case where the king lands on the corner square. There the king itself is moved on, and no generated move does this.
- The alpha and beta floats are `ExtInt` values. Only the infinities and integer scores ever occur, so no floating-point arithmetic is modelled.
- Engine.Minimax: the depth is a `nat`. With a negative depth the test `depth == 0` at engine.py:13 never holds, so every branch recurses until the side to move has no legal move. A position that never ends, such as two bare kings, recurses until Python raises `RecursionError`. This is not modelled.
- Full chess rules that the program does not implement are not added: en passant, castling rights, castling through check, repetition and the fifty-move rule.
