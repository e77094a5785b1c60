/**
 * The validator version of the rules engine: `is_valid_move` checks bounds,
 * ownership and the landing square, then the piece's geometry; sliding
 * pieces consult `is_path_blocked`; `valid_moves` tries every start/end pair.
 *
 * Two quirks of this version are kept: pawns advance with direction +1 for
 * White (towards row 4), and the empty square "." is a truthy string, so the
 * pawn's straight move (which wants a falsy target) is never accepted while
 * its diagonal move accepts an empty square.
 */
module Validator {
  import opened MiniChess

  /**
   * `is_valid_rook_move`, which `is_valid_queen_move` calls, is not part of
   * this model: the queen rule takes it as a parameter.
   */
  type RookRule = (Pos, Pos, Board) -> bool

  predicate Aligned(a: Pos, b: Pos) {
    Straight(a, b) || Diagonal(a, b)
  }

  /** `q` lies on the line from `a` to `b`, strictly between them. */
  predicate Inside(a: Pos, q: Pos, b: Pos) {
    var dr := Sign(b.row - a.row);
    var dc := Sign(b.col - a.col);
    q != a && q != b && Along(a, q, dr, dc) && Along(q, b, dr, dc)
  }

  /** The `while` loop of `is_path_blocked`, from the square `cur` on. */
  function Walk(b: Board, cur: Pos, end: Pos, dr: int, dc: int): bool
    requires OnBoard(cur) && OnBoard(end)
    requires cur == end || (IsDirection(dr, dc) && Along(cur, end, dr, dc))
    decreases Chebyshev(cur, end)
  {
    if cur == end then false
    else if At(b, cur) != Empty then true
    else Walk(b, Pos(cur.row + dr, cur.col + dc), end, dr, dc)
  }

  /** An occupied square in the half-open segment [cur, end) along (dr, dc). */
  ghost predicate BlockerFrom(b: Board, cur: Pos, end: Pos, dr: int, dc: int) {
    exists q :: OnBoard(q) && q != end && Along(cur, q, dr, dc) && Along(q, end, dr, dc) && At(b, q) != Empty
  }

  /** Past the first square, a segment continues from the next square. */
  lemma AlongAfterStep(cur: Pos, q: Pos, dr: int, dc: int)
    requires IsDirection(dr, dc) && Along(cur, q, dr, dc) && q != cur
    ensures Along(Pos(cur.row + dr, cur.col + dc), q, dr, dc)
  {
  }

  lemma AlongBeforeStep(cur: Pos, q: Pos, dr: int, dc: int)
    requires IsDirection(dr, dc) && Along(Pos(cur.row + dr, cur.col + dc), q, dr, dc)
    ensures Along(cur, q, dr, dc)
  {
  }

  /** The loop stops at the first occupied square in [cur, end). */
  lemma {:induction false} WalkFindsOccupied(b: Board, cur: Pos, end: Pos, dr: int, dc: int)
    requires OnBoard(cur) && OnBoard(end)
    requires cur == end || (IsDirection(dr, dc) && Along(cur, end, dr, dc))
    ensures Walk(b, cur, end, dr, dc) <==> BlockerFrom(b, cur, end, dr, dc)
    decreases Chebyshev(cur, end)
  {
    if cur == end {
    } else if At(b, cur) != Empty {
      assert Along(cur, cur, dr, dc);
    } else {
      var next := Pos(cur.row + dr, cur.col + dc);
      WalkFindsOccupied(b, next, end, dr, dc);
      if BlockerFrom(b, cur, end, dr, dc) {
        var q :| OnBoard(q) && q != end && Along(cur, q, dr, dc) && Along(q, end, dr, dc) && At(b, q) != Empty;
        AlongAfterStep(cur, q, dr, dc);
      }
      if BlockerFrom(b, next, end, dr, dc) {
        var q :| OnBoard(q) && q != end && Along(next, q, dr, dc) && Along(q, end, dr, dc) && At(b, q) != Empty;
        AlongBeforeStep(cur, q, dr, dc);
      }
    }
  }

  /** The square `is_path_blocked` looks at first: one step from `start` towards `end`. */
  function FirstStep(start: Pos, end: Pos): Pos {
    Pos(start.row + Sign(end.row - start.row), start.col + Sign(end.col - start.col))
  }

  lemma FirstStepOnLine(start: Pos, end: Pos)
    requires OnBoard(start) && OnBoard(end) && Aligned(start, end)
    ensures var dr := Sign(end.row - start.row);
            var dc := Sign(end.col - start.col);
            && OnBoard(FirstStep(start, end))
            && (FirstStep(start, end) == end || (IsDirection(dr, dc) && Along(FirstStep(start, end), end, dr, dc)))
  {
  }

  lemma InsideFromFirstStep(start: Pos, end: Pos, q: Pos)
    requires Aligned(start, end)
    ensures var dr := Sign(end.row - start.row);
            var dc := Sign(end.col - start.col);
            Inside(start, q, end) <==> q != end && Along(FirstStep(start, end), q, dr, dc) && Along(q, end, dr, dc)
  {
  }

  /** The squares the loop of `is_path_blocked` visits are the ones strictly between start and end. */
  lemma WalkCoversInside(b: Board, start: Pos, end: Pos)
    requires OnBoard(start) && OnBoard(end) && Aligned(start, end)
    ensures var dr := Sign(end.row - start.row);
            var dc := Sign(end.col - start.col);
            && OnBoard(FirstStep(start, end))
            && (FirstStep(start, end) == end || (IsDirection(dr, dc) && Along(FirstStep(start, end), end, dr, dc)))
            && (Walk(b, FirstStep(start, end), end, dr, dc) <==> exists q :: OnBoard(q) && Inside(start, q, end) && At(b, q) != Empty)
  {
    var dr := Sign(end.row - start.row);
    var dc := Sign(end.col - start.col);
    var first := FirstStep(start, end);
    FirstStepOnLine(start, end);
    WalkFindsOccupied(b, first, end, dr, dc);
    forall q
      ensures Inside(start, q, end) <==> q != end && Along(first, q, dr, dc) && Along(q, end, dr, dc)
    {
      InsideFromFirstStep(start, end, q);
    }
  }

  /**
   * `is_path_blocked`, for aligned squares on the board: it stops, and it
   * reports whether some square strictly between start and end is not ".".
   */
  function IsPathBlocked(b: Board, start: Pos, end: Pos): (r: bool)
    requires OnBoard(start) && OnBoard(end) && Aligned(start, end)
    ensures r <==> exists q :: OnBoard(q) && Inside(start, q, end) && At(b, q) != Empty
  {
    var dr := Sign(end.row - start.row);
    var dc := Sign(end.col - start.col);
    WalkCoversInside(b, start, end);
    Walk(b, FirstStep(start, end), end, dr, dc)
  }

  /** No square strictly between start and end is occupied. */
  ghost predicate ClearPath(b: Board, start: Pos, end: Pos) {
    forall q :: OnBoard(q) && Inside(start, q, end) ==> At(b, q) == Empty
  }

  /** `is_valid_bishop_move`: a diagonal whose intermediate squares are all ".". */
  function IsValidBishopMove(start: Pos, end: Pos, b: Board): (r: bool)
    requires OnBoard(start) && OnBoard(end)
    ensures r <==> Diagonal(start, end) && ClearPath(b, start, end)
  {
    if Abs(start.row - end.row) == Abs(start.col - end.col) then !IsPathBlocked(b, start, end) else false
  }

  /** `is_valid_queen_move`: the rook rule or the bishop rule. */
  function IsValidQueenMove(start: Pos, end: Pos, b: Board, rook: RookRule): (r: bool)
    requires OnBoard(start) && OnBoard(end)
    ensures r <==> rook(start, end, b) || (Diagonal(start, end) && ClearPath(b, start, end))
  {
    rook(start, end, b) || IsValidBishopMove(start, end, b)
  }

  /** `is_valid_knight_move`: the absolute offsets are {1, 2}. */
  function IsValidKnightMove(start: Pos, end: Pos): (r: bool)
    ensures r <==> KnightJump(start, end)
  {
    var dr := Abs(start.row - end.row);
    var dc := Abs(start.col - end.col);
    (dr == 2 && dc == 1) || (dr == 1 && dc == 2)
  }

  /** +1 for the 'w' colour letter, -1 otherwise. */
  function PawnDirection(color: char): int {
    if color == 'w' then 1 else -1
  }

  /**
   * `is_valid_pawn_move`: since every square's string is truthy, the
   * straight branch never applies; the move is accepted exactly when it goes
   * one column sideways, one row in the pawn's direction, onto a square whose
   * first character is not the pawn's colour letter ("." included).
   */
  function IsValidPawnMove(color: char, start: Pos, end: Pos, b: Board): (r: bool)
    requires OnBoard(end)
    ensures r <==>
              && Abs(end.col - start.col) == 1
              && end.row - start.row == PawnDirection(color)
              && Head(At(b, end)) != color
    ensures r ==> end.col != start.col
  {
    var direction := if color == 'w' then 1 else -1;
    var target := At(b, end);
    if end.col == start.col && !Truthy(target) then end.row - start.row == direction
    else if Abs(end.col - start.col) == 1 && Truthy(target) && Head(target) != color then end.row - start.row == direction
    else false
  }

  /** The geometry this version demands of each piece once the common checks pass. */
  ghost predicate Reaches(s: State, m: Move, rook: RookRule)
    requires OnBoard(m.start) && OnBoard(m.end) && At(s.board, m.start).Piece?
  {
    var o := m.start;
    var p := m.end;
    var piece := At(s.board, o);
    match piece.kind
    case King => Abs(p.row - o.row) <= 1 && Abs(p.col - o.col) <= 1
    case Queen => rook(o, p, s.board) || (Diagonal(o, p) && ClearPath(s.board, o, p))
    case Bishop => Diagonal(o, p) && ClearPath(s.board, o, p)
    case Knight => KnightJump(o, p)
    case Pawn => Abs(p.col - o.col) == 1 && p.row - o.row == PawnDirection(ColorLetter(piece.color))
  }

  /**
   * The move rule of this version stated directly: both squares on the
   * board, a side-to-move piece at the start, no own piece at the end, and
   * the piece's geometry.
   */
  ghost predicate Legal(s: State, m: Move, rook: RookRule) {
    && OnBoard(m.start) && OnBoard(m.end)
    && At(s.board, m.start).Piece? && At(s.board, m.start).color == s.turn
    && !(At(s.board, m.end).Piece? && At(s.board, m.end).color == s.turn)
    && Reaches(s, m, rook)
  }

  /**
   * `is_valid_move`: bounds, then ownership, then the landing square, then
   * the piece rule. A move is never accepted from a square onto itself.
   */
  function IsValidMove(s: State, m: Move, rook: RookRule): (r: bool)
    ensures r <==> Legal(s, m, rook)
    ensures r ==> OnBoard(m.start) && OnBoard(m.end)
    ensures r ==> Head(At(s.board, m.start)) == ColorLetter(s.turn)
    ensures r ==> Head(At(s.board, m.end)) != Head(At(s.board, m.start))
    ensures r ==> m.start != m.end
  {
    var start := m.start;
    var end := m.end;
    if !(0 <= start.row < 5 && 0 <= start.col < 5 && 0 <= end.row < 5 && 0 <= end.col < 5) then false
    else
      var piece := At(s.board, start);
      if !Truthy(piece) || (s.turn == White && Head(piece) != 'w') || (s.turn == Black && Head(piece) != 'b') then false
      else
        var target := At(s.board, end);
        if Truthy(target) && Head(target) == Head(piece) then false
        else
          match piece
          case Empty => false
          case Piece(color, kind) =>
            match kind
            case King => Abs(start.row - end.row) <= 1 && Abs(start.col - end.col) <= 1
            case Queen => IsValidQueenMove(start, end, s.board, rook)
            case Bishop => IsValidBishopMove(start, end, s.board)
            case Knight => IsValidKnightMove(start, end)
            case Pawn => IsValidPawnMove(Head(piece), start, end, s.board)
  }

  /** Row-major rank of a move: by start square, then by end square. */
  function Key(m: Move): int {
    ((m.start.row * 5 + m.start.col) * 5 + m.end.row) * 5 + m.end.col
  }

  /** The smallest key of a move from `o`. */
  function Base(o: Pos): int {
    (o.row * 5 + o.col) * 25
  }

  predicate SortedByKey(moves: seq<Move>) {
    forall i, j :: 0 <= i < j < |moves| ==> Key(moves[i]) < Key(moves[j])
  }

  /** The two inner loops of `valid_moves`: every end square for the start square `o`. */
  method MovesFromSquare(s: State, rook: RookRule, o: Pos) returns (moves: seq<Move>)
    requires OnBoard(o)
    ensures forall m :: m in moves <==> m.start == o && IsValidMove(s, m, rook)
    ensures forall m :: m in moves ==> Base(o) <= Key(m) < Base(o) + 25
    ensures SortedByKey(moves)
  {
    moves := [];
    for endRow := 0 to 5
      invariant forall m :: m in moves <==> m.start == o && IsValidMove(s, m, rook) && m.end.row < endRow
      invariant forall m :: m in moves ==> Base(o) <= Key(m) < Base(o) + endRow * 5
      invariant SortedByKey(moves)
    {
      for endCol := 0 to 5
        invariant forall m :: m in moves <==>
                    m.start == o && IsValidMove(s, m, rook)
                    && (m.end.row < endRow || (m.end.row == endRow && m.end.col < endCol))
        invariant forall m :: m in moves ==> Base(o) <= Key(m) < Base(o) + endRow * 5 + endCol
        invariant SortedByKey(moves)
      {
        var move := Move(o, Pos(endRow, endCol));
        if IsValidMove(s, move, rook) {
          moves := moves + [move];
        }
      }
    }
  }

  /**
   * `valid_moves`: every on-board start/end pair, tried in row-major order,
   * kept when `is_valid_move` accepts it. The result holds exactly the
   * accepted moves, in increasing row-major order, without repetition.
   */
  method ValidMoves(s: State, rook: RookRule) returns (moves: seq<Move>)
    ensures forall m :: m in moves <==> IsValidMove(s, m, rook)
    ensures SortedByKey(moves)
  {
    moves := [];
    for row := 0 to 5
      invariant forall m :: m in moves <==> IsValidMove(s, m, rook) && m.start.row < row
      invariant forall m :: m in moves ==> Key(m) < row * 125
      invariant SortedByKey(moves)
    {
      for col := 0 to 5
        invariant forall m :: m in moves <==>
                    IsValidMove(s, m, rook) && (m.start.row < row || (m.start.row == row && m.start.col < col))
        invariant forall m :: m in moves ==> Key(m) < row * 125 + col * 25
        invariant SortedByKey(moves)
      {
        var piece := At(s.board, Pos(row, col));
        if Truthy(piece) && ((s.turn == White && Head(piece) == 'w') || (s.turn == Black && Head(piece) == 'b')) {
          var found := MovesFromSquare(s, rook, Pos(row, col));
          moves := moves + found;
        }
      }
    }
  }
}
