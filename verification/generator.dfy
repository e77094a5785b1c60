/**
 * The generator version of the rules engine: `valid_moves` scans the side to
 * move's pieces, asks a per-piece generator for raw candidate squares, and
 * keeps the candidates that are on the board and land on "." or an opponent
 * piece. `is_valid_move` is membership in that list.
 *
 * The queen and bishop generators walk each ray to the board edge without
 * looking at the squares they pass: only the landing square is filtered, so
 * these pieces jump over anything in their way.
 */
module Generator {
  import opened MiniChess

  /** `king_moves`: the eight neighbours, on the board or not. */
  function KingMoves(row: int, col: int): (r: seq<Pos>)
    ensures |r| == 8 && Distinct(r)
    ensures forall p :: p in r <==> Chebyshev(Pos(row, col), p) == 1
  {
    [Pos(row - 1, col - 1), Pos(row - 1, col), Pos(row - 1, col + 1),
     Pos(row, col - 1), Pos(row, col + 1),
     Pos(row + 1, col - 1), Pos(row + 1, col), Pos(row + 1, col + 1)]
  }

  /** `knight_moves`: the eight knight offsets, on the board or not. */
  function KnightMoves(row: int, col: int): (r: seq<Pos>)
    ensures |r| == 8 && Distinct(r)
    ensures forall p :: p in r <==> KnightJump(Pos(row, col), p)
  {
    [Pos(row - 2, col - 1), Pos(row - 2, col + 1),
     Pos(row - 1, col - 2), Pos(row - 1, col + 2),
     Pos(row + 1, col - 2), Pos(row + 1, col + 2),
     Pos(row + 2, col - 1), Pos(row + 2, col + 1)]
  }

  /** How many more steps (dr, dc) stay inside the board from (row, col). */
  function RayBound(row: int, col: int, dr: int, dc: int): int {
    (if dr > 0 then 5 - row else if dr < 0 then row + 1 else 0)
    + (if dc > 0 then 5 - col else if dc < 0 then col + 1 else 0)
  }

  /**
   * The inner `while` of `queen_moves`/`bishop_moves`: the squares from
   * (row, col) onwards in steps of (dr, dc) while they are on the board.
   */
  function Ray(row: int, col: int, dr: int, dc: int): seq<Pos>
    requires IsDirection(dr, dc)
    decreases RayBound(row, col, dr, dc)
  {
    if OnBoard(Pos(row, col)) then [Pos(row, col)] + Ray(row + dr, col + dc, dr, dc) else []
  }

  /** A ray holds exactly the on-board squares along its direction from its first square. */
  lemma {:induction false} RayMembers(row: int, col: int, dr: int, dc: int, p: Pos)
    requires IsDirection(dr, dc)
    ensures p in Ray(row, col, dr, dc) <==> OnBoard(Pos(row, col)) && OnBoard(p) && Along(Pos(row, col), p, dr, dc)
    decreases RayBound(row, col, dr, dc)
  {
    if OnBoard(Pos(row, col)) {
      RayMembers(row + dr, col + dc, dr, dc, p);
    }
  }

  /** A square other than `o` lies along at most one direction from `o`: the signs of its offsets. */
  lemma AlongDirection(o: Pos, p: Pos, dr: int, dc: int)
    requires IsDirection(dr, dc) && p != o
    ensures Along(o, p, dr, dc) ==> dr == Sign(p.row - o.row) && dc == Sign(p.col - o.col)
  {
  }

  /** A ray never visits a square twice. */
  lemma {:induction false} RayDistinct(row: int, col: int, dr: int, dc: int)
    requires IsDirection(dr, dc)
    ensures Distinct(Ray(row, col, dr, dc))
    decreases RayBound(row, col, dr, dc)
  {
    if OnBoard(Pos(row, col)) {
      var rest := Ray(row + dr, col + dc, dr, dc);
      RayDistinct(row + dr, col + dc, dr, dc);
      forall p | p in rest
        ensures p != Pos(row, col)
      {
        RayMembers(row + dr, col + dc, dr, dc, p);
      }
      DistinctConcat([Pos(row, col)], rest);
    }
  }

  /** The ray the source starts one step away from the piece at `o`. */
  lemma OpenRay(o: Pos, dr: int, dc: int, p: Pos)
    requires OnBoard(o) && IsDirection(dr, dc)
    ensures p in Ray(o.row + dr, o.col + dc, dr, dc) <==> OnBoard(p) && p != o && Along(o, p, dr, dc)
  {
    RayMembers(o.row + dr, o.col + dc, dr, dc, p);
  }

  predicate AreDirections(dirs: seq<(int, int)>) {
    forall i :: 0 <= i < |dirs| ==> IsDirection(dirs[i].0, dirs[i].1)
  }

  /** The `for direcRow, direcCol in directions` loop: the rays concatenated in order. */
  function Rays(row: int, col: int, dirs: seq<(int, int)>): seq<Pos>
    requires AreDirections(dirs)
  {
    if |dirs| == 0 then []
    else Ray(row + dirs[0].0, col + dirs[0].1, dirs[0].0, dirs[0].1) + Rays(row, col, dirs[1..])
  }

  lemma {:induction false} RaysMembers(o: Pos, dirs: seq<(int, int)>, p: Pos)
    requires OnBoard(o) && AreDirections(dirs)
    ensures p in Rays(o.row, o.col, dirs) <==>
              OnBoard(p) && p != o && exists i :: 0 <= i < |dirs| && Along(o, p, dirs[i].0, dirs[i].1)
  {
    if |dirs| != 0 {
      OpenRay(o, dirs[0].0, dirs[0].1, p);
      RaysMembers(o, dirs[1..], p);
      if exists i :: 0 <= i < |dirs| && Along(o, p, dirs[i].0, dirs[i].1) {
        var i :| 0 <= i < |dirs| && Along(o, p, dirs[i].0, dirs[i].1);
        if i > 0 {
          assert dirs[1..][i - 1] == dirs[i];
        }
      }
      if exists j :: 0 <= j < |dirs[1..]| && Along(o, p, dirs[1..][j].0, dirs[1..][j].1) {
        var j :| 0 <= j < |dirs[1..]| && Along(o, p, dirs[1..][j].0, dirs[1..][j].1);
        assert dirs[1..][j] == dirs[j + 1];
      }
    }
  }

  /** Rays from one square in pairwise different directions share no square and repeat none. */
  lemma {:induction false} RaysDistinct(o: Pos, dirs: seq<(int, int)>)
    requires OnBoard(o) && AreDirections(dirs) && Distinct(dirs)
    ensures Distinct(Rays(o.row, o.col, dirs))
  {
    if |dirs| != 0 {
      var d := dirs[0];
      var first := Ray(o.row + d.0, o.col + d.1, d.0, d.1);
      var tail := dirs[1..];
      var rest := Rays(o.row, o.col, tail);
      RayDistinct(o.row + d.0, o.col + d.1, d.0, d.1);
      RaysDistinct(o, tail);
      forall p | p in first
        ensures p !in rest
      {
        OpenRay(o, d.0, d.1, p);
        AlongDirection(o, p, d.0, d.1);
        RaysMembers(o, tail, p);
        forall i | 0 <= i < |tail|
          ensures !Along(o, p, tail[i].0, tail[i].1)
        {
          assert tail[i] == dirs[i + 1] != d;
          AlongDirection(o, p, tail[i].0, tail[i].1);
        }
      }
      DistinctConcat(first, rest);
    }
  }

  const BishopDirections: seq<(int, int)> := [(-1, -1), (-1, 1), (1, -1), (1, 1)]
  const QueenDirections: seq<(int, int)> := [(-1, -1), (-1, 0), (-1, 1), (0, -1), (0, 1), (1, -1), (1, 0), (1, 1)]

  /** `bishop_moves`: the four diagonal rays, each run to the board edge. */
  function BishopMoves(row: int, col: int): seq<Pos> {
    Rays(row, col, BishopDirections)
  }

  /** `queen_moves`: the eight rays, each run to the board edge. */
  function QueenMoves(row: int, col: int): seq<Pos> {
    Rays(row, col, QueenDirections)
  }

  /**
   * The bishop's candidates are exactly the on-board squares on its four
   * diagonals, whatever stands on or between them.
   */
  lemma BishopMovesExactly(o: Pos, p: Pos)
    requires OnBoard(o)
    ensures p in BishopMoves(o.row, o.col) <==> OnBoard(p) && p != o && Diagonal(o, p)
  {
    RaysMembers(o, BishopDirections, p);
    if OnBoard(p) && p != o && Diagonal(o, p) {
      var d := (Sign(p.row - o.row), Sign(p.col - o.col));
      var i := if d == (-1, -1) then 0 else if d == (-1, 1) then 1 else if d == (1, -1) then 2 else 3;
      assert BishopDirections[i] == d;
      assert Along(o, p, BishopDirections[i].0, BishopDirections[i].1);
    }
  }

  /**
   * The queen's candidates are exactly the on-board squares on its eight
   * rays, whatever stands on or between them.
   */
  lemma QueenMovesExactly(o: Pos, p: Pos)
    requires OnBoard(o)
    ensures p in QueenMoves(o.row, o.col) <==> OnBoard(p) && p != o && (Straight(o, p) || Diagonal(o, p))
  {
    RaysMembers(o, QueenDirections, p);
    if OnBoard(p) && p != o && (Straight(o, p) || Diagonal(o, p)) {
      var d := (Sign(p.row - o.row), Sign(p.col - o.col));
      var i :=
        if d == (-1, -1) then 0 else if d == (-1, 0) then 1 else if d == (-1, 1) then 2
        else if d == (0, -1) then 3 else if d == (0, 1) then 4 else if d == (1, -1) then 5
        else if d == (1, 0) then 6 else 7;
      assert QueenDirections[i] == d;
      assert Along(o, p, QueenDirections[i].0, QueenDirections[i].1);
    }
  }

  /** Every bishop candidate is also a queen candidate. */
  lemma BishopWithinQueen(o: Pos, p: Pos)
    requires OnBoard(o)
    ensures p in BishopMoves(o.row, o.col) ==> p in QueenMoves(o.row, o.col)
  {
    BishopMovesExactly(o, p);
    QueenMovesExactly(o, p);
  }

  /** The row a pawn of the side `turn` moves into: White moves towards row 0. */
  function Ahead(turn: Color): int {
    if turn == White then -1 else 1
  }

  /** The pawn's target rule: straight onto an empty square, diagonally onto an enemy piece. */
  predicate PawnTarget(b: Board, o: Pos, p: Pos, turn: Color)
    requires OnBoard(p)
  {
    || (p.col == o.col && At(b, p) == Empty)
    || (Abs(p.col - o.col) == 1 && At(b, p).Piece? && At(b, p).color == Opponent(turn))
  }

  /**
   * The three checks `pawn_moves` makes on the row `r` it moves into: straight
   * onto ".", and one column either side onto a piece lettered `enemy`.
   */
  function PawnRow(r: int, col: int, enemy: char, b: Board): (res: seq<Pos>)
    requires 0 <= r < 5 && 0 <= col < 5
    ensures forall p :: p in res <==>
              && OnBoard(p) && p.row == r
              && ((p.col == col && At(b, p) == Empty) || (Abs(p.col - col) == 1 && At(b, p).Piece? && Head(At(b, p)) == enemy))
    ensures Distinct(res)
  {
    (if Code(At(b, Pos(r, col))) == "." then [Pos(r, col)] else [])
    + (if col > 0 && Code(At(b, Pos(r, col - 1))) != "." && Head(At(b, Pos(r, col - 1))) == enemy
       then [Pos(r, col - 1)] else [])
    + (if col < 4 && Code(At(b, Pos(r, col + 1))) != "." && Head(At(b, Pos(r, col + 1))) == enemy
       then [Pos(r, col + 1)] else [])
  }

  /**
   * `pawn_moves`: one row forward for the side to move, straight onto "."
   * and diagonally onto an opponent-lettered piece; nothing from the last row.
   */
  function PawnMoves(row: int, col: int, turn: Color, b: Board): (r: seq<Pos>)
    requires OnBoard(Pos(row, col))
    ensures forall p :: p in r <==> OnBoard(p) && p.row == row + Ahead(turn) && PawnTarget(b, Pos(row, col), p, turn)
    ensures (turn == White && row == 0) || (turn == Black && row == 4) ==> r == []
    ensures Distinct(r)
  {
    if turn == White then
      if row > 0 then PawnRow(row - 1, col, 'b', b) else []
    else
      if row < 4 then PawnRow(row + 1, col, 'w', b) else []
  }

  /** The dispatch on the piece letter in `valid_moves`. */
  function Candidates(s: State, o: Pos): (r: seq<Pos>)
    requires OnBoard(o) && At(s.board, o).Piece?
    ensures Distinct(r)
  {
    match At(s.board, o).kind
    case King => KingMoves(o.row, o.col)
    case Queen =>
      assert Distinct(QueenDirections);
      RaysDistinct(o, QueenDirections);
      QueenMoves(o.row, o.col)
    case Bishop =>
      assert Distinct(BishopDirections);
      RaysDistinct(o, BishopDirections);
      BishopMoves(o.row, o.col)
    case Knight => KnightMoves(o.row, o.col)
    case Pawn => PawnMoves(o.row, o.col, s.turn, s.board)
  }

  /** The landing test: "." or a piece lettered with the opponent's colour. */
  predicate Lands(s: State, p: Pos)
    requires OnBoard(p)
  {
    var t := At(s.board, p);
    Code(t) == "." || (s.turn == White && Head(t) == 'b') || (s.turn == Black && Head(t) == 'w')
  }

  /** The inner `for move in moves` loop: keep on-board candidates that land well. */
  function Keep(s: State, o: Pos, cands: seq<Pos>): (r: seq<Move>)
    ensures forall m :: m in r <==> m.start == o && m.end in cands && OnBoard(m.end) && Lands(s, m.end)
  {
    if |cands| == 0 then []
    else
      var c := cands[0];
      (if OnBoard(c) && Lands(s, c) then [Move(o, c)] else []) + Keep(s, o, cands[1..])
  }

  /** Filtering a repetition-free candidate list repeats no move. */
  lemma {:induction false} KeepDistinct(s: State, o: Pos, cands: seq<Pos>)
    requires Distinct(cands)
    ensures Distinct(Keep(s, o, cands))
  {
    if |cands| != 0 {
      var c := cands[0];
      var head := if OnBoard(c) && Lands(s, c) then [Move(o, c)] else [];
      assert Distinct(cands[1..]);
      assert c !in cands[1..];
      KeepDistinct(s, o, cands[1..]);
      DistinctConcat(head, Keep(s, o, cands[1..]));
    }
  }

  predicate Owns(s: State, p: Pos)
    requires OnBoard(p)
  {
    var piece := At(s.board, p);
    (s.turn == White && Head(piece) == 'w') || (s.turn == Black && Head(piece) == 'b')
  }

  /** The body of the `for row` / `for col` loops for one square. */
  function MovesFrom(s: State, o: Pos): (r: seq<Move>)
    requires OnBoard(o)
    ensures forall m :: m in r ==> m.start == o
    ensures Distinct(r)
  {
    var piece := At(s.board, o);
    if Code(piece) == "." then []
    else if Owns(s, o) then
      KeepDistinct(s, o, Candidates(s, o));
      Keep(s, o, Candidates(s, o))
    else []
  }

  /** Row-major index of a square, and the square of an index. */
  function Index(p: Pos): int {
    p.row * 5 + p.col
  }

  function Square(i: nat): (p: Pos)
    requires i < 25
    ensures OnBoard(p) && Index(p) == i
  {
    Pos(i / 5, i % 5)
  }

  /** The start squares of the moves never go back in row-major order. */
  predicate RowMajor(moves: seq<Move>) {
    forall j, k :: 0 <= j < k < |moves| ==> Index(moves[j].start) <= Index(moves[k].start)
  }

  /** Moves from the square of index `i`, followed by row-major moves from later squares, are row-major. */
  lemma RowMajorConcat(a: seq<Move>, b: seq<Move>, i: int)
    requires forall m :: m in a ==> Index(m.start) == i
    requires forall m :: m in b ==> i < Index(m.start)
    requires RowMajor(b)
    ensures RowMajor(a + b)
  {
    forall j, k | 0 <= j < k < |a + b|
      ensures Index((a + b)[j].start) <= Index((a + b)[k].start)
    {
      if k < |a| {
        assert (a + b)[j] in a && (a + b)[k] in a;
      } else if j < |a| {
        assert (a + b)[j] in a && (a + b)[k] == b[k - |a|];
      } else {
        assert (a + b)[j] == b[j - |a|] && (a + b)[k] == b[k - |a|];
      }
    }
  }

  /** The squares from index `i` on, in row-major order. */
  function Scan(s: State, i: nat): (r: seq<Move>)
    requires i <= 25
    ensures forall m :: m in r <==> OnBoard(m.start) && i <= Index(m.start) && m in MovesFrom(s, m.start)
    ensures RowMajor(r) && Distinct(r)
    decreases 25 - i
  {
    if i == 25 then []
    else
      var o := Square(i);
      assert forall q :: OnBoard(q) && Index(q) == i ==> q == o;
      var here := MovesFrom(s, o);
      var later := Scan(s, i + 1);
      RowMajorConcat(here, later, i);
      DistinctConcat(here, later);
      here + later
  }

  /** The piece rules that the candidate generators implement, without the candidate lists. */
  predicate Reaches(s: State, m: Move)
    requires OnBoard(m.start) && OnBoard(m.end) && At(s.board, m.start).Piece?
  {
    var o := m.start;
    var p := m.end;
    match At(s.board, o).kind
    case King => Chebyshev(o, p) == 1
    case Queen => p != o && (Straight(o, p) || Diagonal(o, p))
    case Bishop => p != o && Diagonal(o, p)
    case Knight => KnightJump(o, p)
    case Pawn => p.row == o.row + Ahead(s.turn) && PawnTarget(s.board, o, p, s.turn)
  }

  /**
   * The generator's move rule stated directly: a side-to-move piece, a
   * landing square on the board not holding one of the mover's own pieces,
   * and the piece's geometry. Nothing between start and end is consulted.
   */
  predicate Legal(s: State, m: Move) {
    && OnBoard(m.start) && OnBoard(m.end)
    && At(s.board, m.start).Piece? && At(s.board, m.start).color == s.turn
    && !(At(s.board, m.end).Piece? && At(s.board, m.end).color == s.turn)
    && Reaches(s, m)
  }

  lemma CandidatesExactly(s: State, m: Move)
    requires OnBoard(m.start) && OnBoard(m.end) && At(s.board, m.start).Piece?
    requires At(s.board, m.start).color == s.turn
    ensures m.end in Candidates(s, m.start) <==> Reaches(s, m)
  {
    match At(s.board, m.start).kind
    case Queen => QueenMovesExactly(m.start, m.end);
    case Bishop => BishopMovesExactly(m.start, m.end);
    case _ =>
  }

  /** The moves one square contributes are exactly the `Legal` moves from it. */
  lemma MovesFromExactly(s: State, m: Move)
    requires OnBoard(m.start)
    ensures m in MovesFrom(s, m.start) <==> Legal(s, m)
  {
    if OnBoard(m.end) && At(s.board, m.start).Piece? && At(s.board, m.start).color == s.turn {
      CandidatesExactly(s, m);
    }
  }

  /**
   * A move from a square lettered with the side to move onto "." or onto a
   * square lettered with the opponent, both on the board.
   */
  predicate OwnPieceOntoEmptyOrEnemy(s: State, m: Move) {
    && OnBoard(m.start) && OnBoard(m.end)
    && Head(At(s.board, m.start)) == ColorLetter(s.turn)
    && (Code(At(s.board, m.end)) == "." || Head(At(s.board, m.end)) == ColorLetter(Opponent(s.turn)))
  }

  lemma MovesFromSound(s: State)
    ensures forall m: Move :: OnBoard(m.start) && m in MovesFrom(s, m.start) ==> OwnPieceOntoEmptyOrEnemy(s, m)
  {
    forall m: Move | OnBoard(m.start) && m in MovesFrom(s, m.start)
      ensures OwnPieceOntoEmptyOrEnemy(s, m)
    {
      MovesFromExactly(s, m);
      var t := At(s.board, m.end);
      assert t.Empty? || t.color == Opponent(s.turn);
    }
  }

  /**
   * `valid_moves`: every move starts on a side-to-move piece and ends on the
   * board on "." or an opponent piece; the start squares come in row-major
   * order, and no move is listed twice.
   */
  function ValidMoves(s: State): (r: seq<Move>)
    ensures forall m :: m in r ==> OwnPieceOntoEmptyOrEnemy(s, m)
    ensures RowMajor(r) && Distinct(r)
  {
    MovesFromSound(s);
    Scan(s, 0)
  }

  /** `valid_moves` holds exactly the moves that `Legal` describes. */
  lemma ValidMovesExactly(s: State, m: Move)
    ensures m in ValidMoves(s) <==> Legal(s, m)
  {
    if OnBoard(m.start) {
      MovesFromExactly(s, m);
    }
  }

  /** `is_valid_move`: membership in `valid_moves`; a query that leaves the state alone. */
  function IsValidMove(s: State, m: Move): (r: bool)
    ensures r <==> Legal(s, m)
  {
    ValidMovesExactly(s, m);
    m in ValidMoves(s)
  }
}
