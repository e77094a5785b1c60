# Mini-chess rules engine in Dafny

This project models the rules engine of a 5×5 mini-chess game. The engine exists in two independent versions, and both are modelled here:

- **Generator version** (`MiniChessSkeletonCode.py`). `valid_moves` walks the side to move's pieces in row-major order. For each piece it asks a per-piece generator (king, queen, bishop, knight, pawn) for raw candidate squares. It keeps the candidates that are on the board and land on `'.'` or an opponent piece. `is_valid_move` is membership in that list. `make_move` relocates a piece and flips the turn. `parse_input` reads `"B2 B3"`, and the game loop renders a square as its column letter followed by its rank.
- **Validator version** (`MiniChessSkeletonCode-gamerulesandvalidemove.py`). `is_valid_move` checks bounds, then ownership, then the landing square, then the piece's geometry. Sliding pieces consult `is_path_blocked`. `valid_moves` tries every start/end pair.

The board is a `seq<seq<Cell>>` of 5 rows by 5 columns (the subset type `MiniChess.Board`). A `Cell` is `Empty` (the source's `"."`) or a `Piece(color, kind)`. `Code` gives the two-letter string the source stores in a square, and `Head` gives its first character. `Truthy` is Python truthiness of that string. Every operation is a pure function, except the validator's `valid_moves`, which is a method with the source's nested loops.

Modules:

- `minichess.dfy` (`MiniChess`): cells, board, state, `init_board`, `make_move`, and shared geometry.
- `generator.dfy` (`Generator`): the generator version.
- `validator.dfy` (`Validator`): the validator version.
- `notation.dfy` (`Notation`): `parse_input` and square rendering.
- `crosscheck.dfy` (`CrossCheck`): how the two versions relate.

Behaviour of the code that the model keeps on purpose:

- In the generator, queen and bishop rays are not stopped by occupied squares. They run to the board edge, and only the landing square is filtered. `CrossCheck.InitialQueenJump` shows the white queen on D1 capturing the black knight on D5 through the black pawn on D4.
- In the validator, the pawn direction is +1 for White (towards row 4). This is the reverse of the generator.
- In the validator, `"."` is a truthy string. So a pawn's straight move, which needs a falsy target, is never accepted. Its diagonal move accepts an empty square.
- The validator file does not parse as Python: `is_valid_move` is mis-indented and the later helpers sit at module level. The model follows the evident logic of each function.

The code has no pawn promotion, no king capture that ends the game, no no-capture counter and no search, so the model has none either. In the generator version the queen and bishop rays are not stopped by occupied squares; in the validator version the bishop's are. The two versions move pawns in opposite directions (`CrossCheck.InitialPawnsDiffer`).

## Model

| member | source | states |
|---|---|---|
| `MiniChess.InitBoard` | MiniChessSkeletonCode.py:19-29 | White moves first; the position is unchanged by a half turn of the board with colours swapped; the kings start on A5 and E1 |
| `MiniChess.MakeMove` | MiniChessSkeletonCode.py:183-193 | the end square holds the piece that was on the start square; the start square becomes `"."` unless start equals end; every other square is unchanged; the turn passes to the other colour |
| `MiniChess.MakeMoveUndo` | MiniChessSkeletonCode.py:183-193 | a move onto an empty square followed by the reverse move gives back the original state |
| `Generator.KingMoves` | MiniChessSkeletonCode.py:106-110 | exactly the eight squares at king distance 1, including off-board ones |
| `Generator.KnightMoves` | MiniChessSkeletonCode.py:135-143 | exactly the eight squares whose absolute offsets are {1, 2}, including off-board ones |
| `Generator.RayMembers` | MiniChessSkeletonCode.py:117-121 | a ray holds exactly the on-board squares reached from its first square in steps of its direction, whatever occupies them |
| `Generator.BishopMovesExactly` | MiniChessSkeletonCode.py:124-133 | the bishop's candidates are exactly the on-board squares on its diagonals other than its own, whatever stands between |
| `Generator.QueenMovesExactly` | MiniChessSkeletonCode.py:112-122 | the queen's candidates are exactly the on-board squares on its rows, columns and diagonals other than its own, whatever stands between |
| `Generator.BishopWithinQueen` | MiniChessSkeletonCode.py:112-133 | every bishop candidate from a square is a queen candidate from it |
| `Generator.PawnRow` | MiniChessSkeletonCode.py:149-157 | in the row entered: straight only onto `"."`, one column aside only onto a piece of the enemy letter |
| `Generator.PawnMoves` | MiniChessSkeletonCode.py:145-168 | candidates lie one row ahead (row−1 for White, row+1 for Black); straight only onto an empty square, diagonal only onto an opponent piece; none from the last row |
| `Generator.Keep` | MiniChessSkeletonCode.py:97-102 | keeps exactly the candidates that are on the board and land on `"."` or an opponent-lettered piece |
| `Generator.RaysDistinct` | MiniChessSkeletonCode.py:112-133 | rays from one square in pairwise different directions never repeat a square, so the queen and bishop candidate lists have no repeats |
| `Generator.KeepDistinct` | MiniChessSkeletonCode.py:97-102 | filtering a candidate list without repeats yields no repeated move |
| `Generator.Scan` | MiniChessSkeletonCode.py:76-94 | from a row-major index on, holds exactly the moves each remaining start square contributes, with start squares in row-major order and no move twice |
| `Generator.CandidatesExactly` | MiniChessSkeletonCode.py:85-94 | the candidate list picked by piece letter contains a square exactly when that piece's geometry reaches it |
| `Generator.ValidMoves` | MiniChessSkeletonCode.py:76-102 | every move starts on a piece with the side to move's letter, ends on the board, and lands on `"."` or an opponent-lettered piece; start squares come in row-major order; no move is listed twice |
| `Generator.ValidMovesExactly` | MiniChessSkeletonCode.py:71-104 | a move is listed exactly when it starts on a side-to-move piece, ends on the board off the mover's own pieces, and fits the piece's geometry |
| `Generator.IsValidMove` | MiniChessSkeletonCode.py:56-58 | accepts exactly the moves of that geometric rule; a query that leaves the state unchanged |
| `Validator.WalkFindsOccupied` | MiniChessSkeletonCode-gamerulesandvalidemove.py:131-137 | the loop terminates and reports whether some square from the current one up to, but excluding, the end is not `"."` |
| `Validator.IsPathBlocked` | MiniChessSkeletonCode-gamerulesandvalidemove.py:124-137 | for aligned on-board squares: true exactly when some square strictly between start and end on their line is not `"."` |
| `Validator.IsValidBishopMove` | MiniChessSkeletonCode-gamerulesandvalidemove.py:99-104 | accepted exactly when the move is diagonal and every square strictly between is empty |
| `Validator.IsValidQueenMove` | MiniChessSkeletonCode-gamerulesandvalidemove.py:97-98 | accepted exactly when the rook rule accepts or the move is an unobstructed diagonal |
| `Validator.IsValidKnightMove` | MiniChessSkeletonCode-gamerulesandvalidemove.py:105-108 | accepted exactly when the absolute offsets are {1, 2} |
| `Validator.IsValidPawnMove` | MiniChessSkeletonCode-gamerulesandvalidemove.py:109-123 | accepted exactly when the pawn moves one column sideways, one row in direction +1 for `'w'` or −1 otherwise, onto a square not starting with its colour letter (`"."` included); never straight |
| `Validator.IsValidMove` | MiniChessSkeletonCode-gamerulesandvalidemove.py:55-87 | rejects off-board squares, a start not lettered with the side to move, a target with the mover's letter, and start equal to end; otherwise king iff both offsets ≤ 1, knight iff offsets {1, 2}, bishop iff unobstructed diagonal, queen iff rook rule or unobstructed diagonal, pawn as above |
| `Validator.MovesFromSquare` | MiniChessSkeletonCode-gamerulesandvalidemove.py:144-148 | for one start square: exactly the accepted moves from it, in row-major order of the end square |
| `Validator.ValidMoves` | MiniChessSkeletonCode-gamerulesandvalidemove.py:138-149 | exactly the moves `is_valid_move` accepts, in strictly increasing row-major order of start then end, so without repetition |
| `Notation.Split` | MiniChessSkeletonCode.py:205 | the tokens are non-empty and whitespace-free, and written one after another they give the input with its whitespace removed |
| `Notation.SplitLayout` | MiniChessSkeletonCode.py:205 | words laid out between whitespace runs (non-empty between two words, any length at the ends) split back into exactly those words |
| `Notation.SplitHasLayout` | MiniChessSkeletonCode.py:205 | every input is its tokens laid out between such whitespace runs, so the tokens are its maximal whitespace-free runs in order |
| `Notation.SplitTwoWords` | MiniChessSkeletonCode.py:205 | two whitespace-free words joined by a space split into exactly those two words |
| `Notation.ParseSquare` | MiniChessSkeletonCode.py:206-207 | a token parses exactly when its second character is a digit; the row is then between −4 and 5, unchecked against the board |
| `Notation.ParseInput` | MiniChessSkeletonCode.py:203-210 | None unless the input splits into exactly two tokens, each with a digit as second character; a move otherwise |
| `Notation.Render` | MiniChessSkeletonCode.py:239-240 | an on-board square renders as a letter A–E followed by a rank 1–5 |
| `Notation.ParseRendered` | MiniChessSkeletonCode.py:203-210 | rendering two on-board squares and joining them with a space parses back to the move between them |
| `Notation.ParseIgnoresCase` | MiniChessSkeletonCode.py:206 | a lower-case column letter parses like the upper-case one |
| `Notation.ParseSkipsBoundsCheck` | MiniChessSkeletonCode.py:206-207 | `"A9 z0"` parses to rows −4 and 5 and column 25: the parser does not check bounds |
| `Notation.ParseRejectsShortToken` | MiniChessSkeletonCode.py:204-210 | a one-character token makes the whole input fail |
| `CrossCheck.KingMovesAgree` | MiniChessSkeletonCode-gamerulesandvalidemove.py:76-77 | the two versions accept exactly the same moves from a king |
| `CrossCheck.KnightMovesAgree` | MiniChessSkeletonCode-gamerulesandvalidemove.py:105-108 | the two versions accept exactly the same moves from a knight |
| `CrossCheck.BishopValidatorStricter` | MiniChessSkeletonCode-gamerulesandvalidemove.py:99-104 | every bishop move the validator accepts is also offered by the generator |
| `CrossCheck.InitialBishopJump` | MiniChessSkeletonCode.py:124-133 | on the initial board the generator lets the C1 bishop jump its own pawn to A3; the validator refuses it as blocked |
| `CrossCheck.InitialQueenJump` | MiniChessSkeletonCode.py:112-122 | on the initial board the generator lets the D1 queen capture on D5 past the black pawn on D4 |
| `CrossCheck.InitialPawnsDiffer` | MiniChessSkeletonCode-gamerulesandvalidemove.py:112-121 | on the initial board the generator pushes the B2 pawn to B3 and the validator does not; the validator moves it diagonally onto the empty A1 and the generator does not |

## Left out

- `display_board` and `play` in both files: printing, `input()`, `exit()` and the turn counter are I/O. Only the square rendering at lines 239-240 is modelled.
- `game_io.py`: argument parsing and writing the trace file are I/O.
- `is_valid_rook_move` is not part of this model. No file defines it. `is_valid_queen_move` and the validator's `is_valid_move` and `valid_moves` therefore take it as the parameter `rook`.
- `is_on_board`: nothing calls it.
- The validator file's copies of `make_move` and `parse_input`: they are identical to the generator file's, which are modelled.
- Search, evaluation, pawn promotion, king capture as a win and the no-capture counter: the code contains none of them.
- Piece letters other than K/Q/B/N/p, colour letters other than `w`/`b`, and turn strings other than `"white"`/`"black"` cannot be represented. For such a square the generator would reuse a stale `moves` list.
- `make_move` mutates the state dictionary in place and returns it. The model returns a new state instead.
- MiniChess.MakeMove: requires both squares on the board. The game loop only calls it after validation. Python would wrap negative indices or raise on larger ones.
- Notation.Render: requires an on-board square. The game loop renders only validated moves, and for those `str(5 - row)` is one digit.
- Validator.IsPathBlocked: requires aligned squares. Its only callers pass diagonal moves. On unaligned squares the Python loop walks off the board.
- Notation.ParseSquare: `int()` is modelled for ASCII digits only. Python also accepts other Unicode decimal digits.
- Notation.ParseSquare: `upper()` is modelled for ASCII letters only. Python's full Unicode case mapping is not modelled, including characters that upper-case to two characters and make `ord` raise.
