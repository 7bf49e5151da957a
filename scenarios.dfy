/** Concrete positions: the opening moves of the starting position, a rook giving check down an
    open file (the king may step off the file but not along it), the kingless board, a two-rook
    checkmate and a queen stalemate. */
module Scenarios {
  import opened ChessBoard
  import opened PseudoLegal
  import opened PseudoLegalFacts
  import opened Legality
  import opened LegalityFacts
  import opened GameStatus

  /** In the starting position the white queen-side knight can jump to (5, 2) and (5, 0) and
      nowhere else: its other targets are off the board or hold a white pawn. */
  lemma KnightFromStart(m: Square)
    ensures m in PseudoMoves(InitialBoard, 7, 1) <==> m == Square(5, 2) || m == Square(5, 0)
  {
    LeaperMovesExact(InitialBoard, 7, 1, m);
  }

  /** In the starting position the white king's pawn may advance one or two squares. */
  lemma PawnDoubleStepFromStart()
    ensures PseudoMoves(InitialBoard, 6, 4) == [Square(5, 4), Square(4, 4)]
  {
    PawnMovesUnfold(InitialBoard, 6, 4, White);
  }

  /** A black pawn on its start row with a piece right in front of it and nothing to capture
      has no move at all. */
  lemma BlockedPawn()
    ensures PseudoMoves(Put(InitialBoard, Square(2, 3), Some(Piece(White, Knight))), 1, 3) == []
  {
    var b := Put(InitialBoard, Square(2, 3), Some(Piece(White, Knight)));
    PawnMovesUnfold(b, 1, 3, Black);
  }

  /** Next to that knight, a black pawn advances one or two squares and may also take the knight
      diagonally, toward the higher column. */
  lemma PawnMayCapture()
    ensures PseudoMoves(Put(InitialBoard, Square(2, 3), Some(Piece(White, Knight))), 1, 2) ==
              [Square(2, 2), Square(3, 2), Square(2, 3)]
  {
    var b := Put(InitialBoard, Square(2, 3), Some(Piece(White, Knight)));
    PawnMovesUnfold(b, 1, 2, Black);
  }

  /** A board with only a white king on (7, 4) and a black rook on (0, 4). */
  const RookCheckBoard: Board := Put(Put(EmptyBoard, Square(7, 4), KingOf(White)), Square(0, 4), Some(Piece(Black, Rook)))

  /** The rook's ray down the open file reaches the king, so White is in check. */
  lemma RookGivesCheck()
    ensures InCheck(White, RookCheckBoard)
  {
    SliderGivesCheck(RookCheckBoard, White, 0, 4, (1, 0), 7);
  }

  /** The rook-check board after the white king steps from (7, 4) to (7, 3). */
  const KingOffFileBoard: Board := Simulate(RookCheckBoard, 7, 4, Square(7, 3))

  /** After the step the rook on (0, 4) is Black's only piece, and it does not reach (7, 3). */
  lemma RookMissesKingOffFile(r: int, c: int)
    requires OnBoard(r, c) && HoldsColor(KingOffFileBoard, Square(r, c), Black)
    ensures Square(7, 3) !in PseudoMoves(KingOffFileBoard, r, c)
  {
    assert r == 0 && c == 4;
    if Square(7, 3) in PseudoMoves(KingOffFileBoard, 0, 4) {
      var d, k := SliderMoveOnLine(KingOffFileBoard, 0, 4, Square(7, 3));
    }
  }

  /** After the step the king on (7, 3) is White's only king and no black piece reaches it. */
  lemma KingOffFileSafe()
    ensures !InCheck(White, KingOffFileBoard)
  {
    assert FirstKing(KingOffFileBoard, White, Square(7, 3));
    CheckIffAttacked(KingOffFileBoard, White, Square(7, 3));
    if InCheck(White, KingOffFileBoard) {
      var r, c :| OnBoard(r, c) && HoldsColor(KingOffFileBoard, Square(r, c), Black) && Square(7, 3) in PseudoMoves(KingOffFileBoard, r, c);
      RookMissesKingOffFile(r, c);
    }
  }

  /** The king in check may step off the rook's file, to (7, 3). */
  lemma KingStepsOffFile()
    ensures Square(7, 3) in LegalMoves(RookCheckBoard, 7, 4)
  {
    LeaperMovesExact(RookCheckBoard, 7, 4, Square(7, 3));
    LegalMovesExact(RookCheckBoard, 7, 4, Square(7, 3));
    KingOffFileSafe();
  }

  /** The rook-check board after the white king steps from (7, 4) to (6, 4). */
  const KingOnFileBoard: Board := Simulate(RookCheckBoard, 7, 4, Square(6, 4))

  /** After that step the rook on (0, 4) still reaches the king down the open file. */
  lemma KingOnFileChecked()
    ensures InCheck(White, KingOnFileBoard)
  {
    SliderGivesCheck(KingOnFileBoard, White, 0, 4, (1, 0), 6);
  }

  /** The king in check may not step along the rook's file, to (6, 4). */
  lemma KingStaysOnFileRejected()
    ensures Square(6, 4) !in LegalMoves(RookCheckBoard, 7, 4)
  {
    LegalMovesExact(RookCheckBoard, 7, 4, Square(6, 4));
    KingOnFileChecked();
  }

  /** With no white king on the board, White counts as in check. */
  lemma KinglessIsCheck()
    ensures InCheck(White, EmptyBoard)
  {
    NoKingInCheck(EmptyBoard, White);
  }

  /** A white king on (7, 4) with black rooks on (7, 0) and (6, 0): the rook on row 7 gives
      check and every square the king can step to is covered by one of the rooks. */
  const LadderMateBoard: Board :=
    Put(Put(Put(EmptyBoard, Square(7, 4), KingOf(White)), Square(7, 0), Some(Piece(Black, Rook))), Square(6, 0), Some(Piece(Black, Rook)))

  /** Each step of the white king on the ladder-mate board lands on a rook's rank. */
  lemma LadderKingStepChecked(m: Square)
    requires m in [Square(7, 5), Square(7, 3), Square(6, 4), Square(6, 5), Square(6, 3)]
    ensures InCheck(White, Simulate(LadderMateBoard, 7, 4, m))
  {
    var after := Simulate(LadderMateBoard, 7, 4, m);
    assert Along(m.row, 0, (0, 1), m.col) == m;
    SliderGivesCheck(after, White, m.row, 0, (0, 1), m.col);
  }

  /** On the ladder-mate board the white king on (7, 4) is White's only piece, and its steps
      are the five squares next to it. */
  lemma LadderKingAlone(r: int, c: int, m: Square)
    requires OnBoard(r, c) && HoldsColor(LadderMateBoard, Square(r, c), White)
    requires m in PseudoMoves(LadderMateBoard, r, c)
    ensures r == 7 && c == 4
    ensures m in [Square(7, 5), Square(7, 3), Square(6, 4), Square(6, 5), Square(6, 3)]
  {
    LeaperMovesExact(LadderMateBoard, 7, 4, m);
  }

  /** The ladder mate: White is in check and has no legal move, which the status
      classification reports as checkmate. */
  lemma LadderMate()
    ensures InCheck(White, LadderMateBoard) && !HasLegalMove(LadderMateBoard, White)
  {
    SliderGivesCheck(LadderMateBoard, White, 7, 0, (0, 1), 4);
    if HasLegalMove(LadderMateBoard, White) {
      var r, c, m := LegalMoveWitness(LadderMateBoard, White);
      LadderKingAlone(r, c, m);
      LadderKingStepChecked(m);
    }
  }

  /** A white king on (7, 0) facing a black queen on (5, 1): not attacked, but every square it
      can step to is. */
  const StalemateBoard: Board := Put(Put(EmptyBoard, Square(7, 0), KingOf(White)), Square(5, 1), Some(Piece(Black, Queen)))

  lemma StalemateKingStepChecked(m: Square)
    requires m in [Square(7, 1), Square(6, 0), Square(6, 1)]
    ensures InCheck(White, Simulate(StalemateBoard, 7, 0, m))
  {
    var after := Simulate(StalemateBoard, 7, 0, m);
    if m == Square(6, 0) {
      SliderGivesCheck(after, White, 5, 1, (1, -1), 1);
    } else {
      assert Along(5, 1, (1, 0), m.row - 5) == m;
      SliderGivesCheck(after, White, 5, 1, (1, 0), m.row - 5);
    }
  }

  /** On the stalemate board the white king on (7, 0) is White's only piece, and its steps are
      the three squares next to it. */
  lemma StalemateKingAlone(r: int, c: int, m: Square)
    requires OnBoard(r, c) && HoldsColor(StalemateBoard, Square(r, c), White)
    requires m in PseudoMoves(StalemateBoard, r, c)
    ensures r == 7 && c == 0
    ensures m in [Square(7, 1), Square(6, 0), Square(6, 1)]
  {
    LeaperMovesExact(StalemateBoard, 7, 0, m);
  }

  /** The black queen on (5, 1) is Black's only piece and does not reach (7, 0). */
  lemma StalemateKingSafe(r: int, c: int)
    requires OnBoard(r, c) && HoldsColor(StalemateBoard, Square(r, c), Black)
    ensures Square(7, 0) !in PseudoMoves(StalemateBoard, r, c)
  {
    assert r == 5 && c == 1;
    if Square(7, 0) in PseudoMoves(StalemateBoard, 5, 1) {
      var d, n := SliderMoveOnLine(StalemateBoard, 5, 1, Square(7, 0));
    }
  }

  /** The stalemate: White is not in check and has no legal move. */
  lemma Stalemate()
    ensures !InCheck(White, StalemateBoard) && !HasLegalMove(StalemateBoard, White)
  {
    CheckIffAttacked(StalemateBoard, White, Square(7, 0));
    if InCheck(White, StalemateBoard) {
      var r, c :| OnBoard(r, c) && HoldsColor(StalemateBoard, Square(r, c), Black) && Square(7, 0) in PseudoMoves(StalemateBoard, r, c);
      StalemateKingSafe(r, c);
    }
    if HasLegalMove(StalemateBoard, White) {
      var r, c, m := LegalMoveWitness(StalemateBoard, White);
      StalemateKingAlone(r, c, m);
      StalemateKingStepChecked(m);
    }
  }
}
