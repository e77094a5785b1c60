/**
 * How the two versions of the rules engine relate: they agree on every king
 * and knight move, the validator's bishop is stricter than the generator's,
 * and on the initial position they part ways on sliding pieces and pawns.
 */
module CrossCheck {
  import opened MiniChess
  import Generator
  import Validator

  /** The piece standing on a move's start square, when the square is on the board. */
  predicate StartsWith(s: State, m: Move, k: Kind) {
    OnBoard(m.start) && At(s.board, m.start).Piece? && At(s.board, m.start).kind == k
  }

  lemma KingRulesAgree(s: State, m: Move, rook: Validator.RookRule)
    requires StartsWith(s, m, King)
    ensures Validator.Legal(s, m, rook) <==> Generator.Legal(s, m)
  {
  }

  /** Both versions accept exactly the same king moves. */
  lemma KingMovesAgree(s: State, m: Move, rook: Validator.RookRule)
    requires StartsWith(s, m, King)
    ensures Validator.IsValidMove(s, m, rook) <==> Generator.IsValidMove(s, m)
  {
    KingRulesAgree(s, m, rook);
  }

  lemma KnightRulesAgree(s: State, m: Move, rook: Validator.RookRule)
    requires StartsWith(s, m, Knight)
    ensures Validator.Legal(s, m, rook) <==> Generator.Legal(s, m)
  {
  }

  /** Both versions accept exactly the same knight moves. */
  lemma KnightMovesAgree(s: State, m: Move, rook: Validator.RookRule)
    requires StartsWith(s, m, Knight)
    ensures Validator.IsValidMove(s, m, rook) <==> Generator.IsValidMove(s, m)
  {
    KnightRulesAgree(s, m, rook);
  }

  /** A bishop move the validator accepts is one the generator offers too. */
  lemma BishopValidatorStricter(s: State, m: Move, rook: Validator.RookRule)
    requires StartsWith(s, m, Bishop)
    ensures Validator.IsValidMove(s, m, rook) ==> Generator.IsValidMove(s, m)
  {
    if Validator.IsValidMove(s, m, rook) {
      assert Validator.Legal(s, m, rook);
      assert m.start != m.end;
      assert Generator.Reaches(s, m);
      assert Generator.Legal(s, m);
    }
  }

  /**
   * On the initial board the generator lets the white bishop jump its own
   * pawn from C1 to A3, which the validator refuses because the path is
   * blocked.
   */
  lemma InitialBishopJump(rook: Validator.RookRule)
    ensures var m := Move(Pos(4, 2), Pos(2, 0));
            Generator.IsValidMove(InitBoard(), m) && !Validator.IsValidMove(InitBoard(), m, rook)
  {
    var s := InitBoard();
    var m := Move(Pos(4, 2), Pos(2, 0));
    assert At(s.board, Pos(4, 2)) == Piece(White, Bishop);
    assert At(s.board, Pos(2, 0)) == Empty;
    assert Generator.Legal(s, m);
    assert Validator.Inside(Pos(4, 2), Pos(3, 1), Pos(2, 0));
    assert At(s.board, Pos(3, 1)) != Empty;
    assert !Validator.ClearPath(s.board, m.start, m.end);
  }

  /**
   * On the initial board the generator's white queen on D1 captures the
   * black knight on D5 through the black pawn on D4.
   */
  lemma InitialQueenJump()
    ensures Generator.IsValidMove(InitBoard(), Move(Pos(4, 3), Pos(0, 3)))
    ensures At(InitBoard().board, Pos(1, 3)) == Piece(Black, Pawn)
  {
    var s := InitBoard();
    var m := Move(Pos(4, 3), Pos(0, 3));
    assert At(s.board, Pos(4, 3)) == Piece(White, Queen);
    assert At(s.board, Pos(0, 3)) == Piece(Black, Knight);
    assert Generator.Legal(s, m);
  }

  /**
   * The two versions move pawns in opposite directions: on the initial board
   * the generator pushes the B2 pawn to B3, and the validator instead lets it
   * step diagonally backwards onto the empty A1.
   */
  lemma InitialPawnsDiffer(rook: Validator.RookRule)
    ensures var push := Move(Pos(3, 1), Pos(2, 1));
            Generator.IsValidMove(InitBoard(), push) && !Validator.IsValidMove(InitBoard(), push, rook)
    ensures var back := Move(Pos(3, 1), Pos(4, 0));
            !Generator.IsValidMove(InitBoard(), back) && Validator.IsValidMove(InitBoard(), back, rook)
  {
    var s := InitBoard();
    var push := Move(Pos(3, 1), Pos(2, 1));
    var back := Move(Pos(3, 1), Pos(4, 0));
    assert At(s.board, Pos(3, 1)) == Piece(White, Pawn);
    assert At(s.board, Pos(2, 1)) == Empty;
    assert At(s.board, Pos(4, 0)) == Empty;
    assert Generator.Legal(s, push);
    assert !Validator.Legal(s, push, rook);
    assert !Generator.Legal(s, back);
    assert Validator.Legal(s, back, rook);
  }
}
