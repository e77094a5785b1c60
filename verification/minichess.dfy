/**
 * The game state shared by both versions of the 5x5 mini-chess rules engine:
 * squares and their two-letter codes, the board, the side to move, the
 * initial position and the state transition `make_move`.
 *
 * Row 0 is Black's back rank and row 4 is White's; the source stores every
 * square as a string, either "." or a colour letter ('w'/'b') followed by a
 * kind letter ('K', 'Q', 'B', 'N', 'p').
 */
module MiniChess {

  datatype Color = White | Black
  datatype Kind = King | Queen | Bishop | Knight | Pawn

  /** What one square holds; `Empty` is the source's ".". */
  datatype Cell = Empty | Piece(color: Color, kind: Kind)

  function Opponent(c: Color): (r: Color)
    ensures r != c
  {
    if c == White then Black else White
  }

  function ColorLetter(c: Color): char {
    if c == White then 'w' else 'b'
  }

  function KindLetter(k: Kind): char {
    match k
    case King => 'K'
    case Queen => 'Q'
    case Bishop => 'B'
    case Knight => 'N'
    case Pawn => 'p'
  }

  /** The string the source keeps in a square. */
  function Code(c: Cell): string {
    match c
    case Empty => "."
    case Piece(color, kind) => [ColorLetter(color), KindLetter(kind)]
  }

  /** `piece[0]`: the first character of a square's string. */
  function Head(c: Cell): (r: char)
    ensures r == '.' <==> c.Empty?
    ensures c.Piece? ==> r == ColorLetter(c.color)
  {
    Code(c)[0]
  }

  /**
   * Python truthiness of a square's string. Every code is non-empty, the
   * empty square's "." included, so `not piece` never holds on a board.
   */
  predicate Truthy(c: Cell) {
    |Code(c)| != 0
  }

  /** A square; candidate squares may lie off the board, so both are `int`. */
  datatype Pos = Pos(row: int, col: int)

  /** A move: the source's pair of (row, col) pairs, start first. */
  datatype Move = Move(start: Pos, end: Pos)

  predicate OnBoard(p: Pos) {
    0 <= p.row < 5 && 0 <= p.col < 5
  }

  type Board = b: seq<seq<Cell>> | |b| == 5 && forall r :: 0 <= r < |b| ==> |b[r]| == 5
    witness seq(5, _ => seq(5, _ => Empty))

  /** `board[row][col]` */
  function At(b: Board, p: Pos): Cell
    requires OnBoard(p)
  {
    b[p.row][p.col]
  }

  /** `board[row][col] = c`, as a new board. */
  function Put(b: Board, p: Pos, c: Cell): (r: Board)
    requires OnBoard(p)
    ensures At(r, p) == c
    ensures forall q :: OnBoard(q) && q != p ==> At(r, q) == At(b, q)
  {
    b[p.row := b[p.row][p.col := c]]
  }

  /** Two boards that agree on every square are the same board. */
  lemma BoardsEqual(a: Board, b: Board)
    requires forall q :: OnBoard(q) ==> At(a, q) == At(b, q)
    ensures a == b
  {
    forall r | 0 <= r < 5
      ensures a[r] == b[r]
    {
      forall c | 0 <= c < 5
        ensures a[r][c] == b[r][c]
      {
        assert At(a, Pos(r, c)) == At(b, Pos(r, c));
      }
    }
  }

  /** The game-state dictionary: the board and whose turn it is. */
  datatype State = State(board: Board, turn: Color)

  /** The square obtained by swapping colours and rotating the board half a turn. */
  function Mirror(c: Cell): Cell {
    match c
    case Empty => Empty
    case Piece(color, kind) => Piece(Opponent(color), kind)
  }

  /**
   * `init_board`: White to move, and the position is symmetric under a half
   * turn of the board with the colours swapped.
   */
  function InitBoard(): (s: State)
    ensures s.turn == White
    ensures forall p :: OnBoard(p) ==> At(s.board, Pos(4 - p.row, 4 - p.col)) == Mirror(At(s.board, p))
    ensures At(s.board, Pos(0, 0)) == Piece(Black, King) && At(s.board, Pos(4, 4)) == Piece(White, King)
  {
    var bp := Piece(Black, Pawn);
    var wp := Piece(White, Pawn);
    State(
      [[Piece(Black, King), Piece(Black, Queen), Piece(Black, Bishop), Piece(Black, Knight), Empty],
       [Empty, Empty, bp, bp, Empty],
       [Empty, Empty, Empty, Empty, Empty],
       [Empty, wp, wp, Empty, Empty],
       [Empty, Piece(White, Knight), Piece(White, Bishop), Piece(White, Queen), Piece(White, King)]],
      White)
  }

  /**
   * `make_move`: the piece on the start square is written to the end square,
   * the start square is cleared first, and the turn passes to the other side.
   * There is no promotion, capture bookkeeping or win detection.
   */
  function MakeMove(s: State, m: Move): (r: State)
    requires OnBoard(m.start) && OnBoard(m.end)
    ensures At(r.board, m.end) == At(s.board, m.start)
    ensures m.start != m.end ==> At(r.board, m.start) == Empty
    ensures forall q :: OnBoard(q) && q != m.start && q != m.end ==> At(r.board, q) == At(s.board, q)
    ensures r.turn == Opponent(s.turn)
  {
    var piece := At(s.board, m.start);
    var cleared := Put(s.board, m.start, Empty);
    State(Put(cleared, m.end, piece), if s.turn == White then Black else White)
  }

  /** A move onto an empty square is undone by the reverse move. */
  lemma MakeMoveUndo(s: State, m: Move)
    requires OnBoard(m.start) && OnBoard(m.end)
    requires At(s.board, m.end) == Empty
    ensures MakeMove(MakeMove(s, m), Move(m.end, m.start)) == s
  {
    var t := MakeMove(MakeMove(s, m), Move(m.end, m.start));
    BoardsEqual(t.board, s.board);
  }

  /** No element occurs twice. */
  predicate Distinct<T(==)>(s: seq<T>) {
    forall i, j :: 0 <= i < j < |s| ==> s[i] != s[j]
  }

  /** Joining two repetition-free sequences with no common element repeats nothing. */
  lemma DistinctConcat<T>(a: seq<T>, b: seq<T>)
    requires Distinct(a) && Distinct(b)
    requires forall x :: x in a ==> x !in b
    ensures Distinct(a + b)
  {
    forall i, j | 0 <= i < j < |a + b|
      ensures (a + b)[i] != (a + b)[j]
    {
      if j >= |a| && i < |a| {
        assert (a + b)[i] in a && (a + b)[j] == b[j - |a|];
      }
    }
  }

  // ---- geometry shared by both versions ----

  function Abs(x: int): nat {
    if x < 0 then -x else x
  }

  function Sign(x: int): int {
    if x > 0 then 1 else if x < 0 then -1 else 0
  }

  function Max(a: int, b: int): int {
    if a < b then b else a
  }

  /** King distance between two squares. */
  function Chebyshev(a: Pos, b: Pos): nat {
    Max(Abs(b.row - a.row), Abs(b.col - a.col))
  }

  /** The knight's displacement: the two absolute offsets are 1 and 2. */
  predicate KnightJump(a: Pos, b: Pos) {
    {Abs(b.row - a.row), Abs(b.col - a.col)} == {1, 2}
  }

  predicate Diagonal(a: Pos, b: Pos) {
    Abs(b.row - a.row) == Abs(b.col - a.col)
  }

  predicate Straight(a: Pos, b: Pos) {
    a.row == b.row || a.col == b.col
  }

  /** One step of a ray: each component in -1..1, not both zero. */
  predicate IsDirection(dr: int, dc: int) {
    -1 <= dr <= 1 && -1 <= dc <= 1 && !(dr == 0 && dc == 0)
  }

  /** `delta` has the sign of the step `d` (or is zero). */
  predicate Toward(delta: int, d: int) {
    if d == 0 then delta == 0 else if d > 0 then delta >= 0 else delta <= 0
  }

  /** `b` is `a` plus some number k >= 0 of steps (dr, dc). */
  predicate Along(a: Pos, b: Pos, dr: int, dc: int) {
    && Toward(b.row - a.row, dr)
    && Toward(b.col - a.col, dc)
    && (dr != 0 && dc != 0 ==> Abs(b.row - a.row) == Abs(b.col - a.col))
  }
}
