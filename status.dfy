/** The end-of-game decision made after every move: does the side to move have a legal move
    anywhere, and is its king in check? No legal move in check is checkmate, no legal move
    out of check is stalemate; otherwise play goes on, with or without check. */
module GameStatus {
  import opened ChessBoard
  import opened PseudoLegal
  import opened PseudoLegalFacts
  import opened Legality
  import opened LegalityFacts
  import opened Scan

  datatype Status = Playing(check: bool) | Checkmate | Stalemate

  /** The piece on (r, c) belongs to `color` and has at least one legal move. */
  ghost predicate CanMove(b: Board, color: Color, r: int, c: int)
  {
    OnBoard(r, c) && HoldsColor(b, Square(r, c), color) && LegalMoves(b, r, c) != []
  }

  /** Some piece of `color` has a legal move. */
  ghost predicate HasLegalMove(b: Board, color: Color)
  {
    exists r, c :: CanMove(b, color, r, c)
  }

  /** The squares whose piece of `color` has a legal move, as a predicate on coordinates. */
  ghost function Movable(b: Board, color: Color): (int, int) -> bool
  {
    (r, c) => CanMove(b, color, r, c)
  }

  /** Scanning the whole board for a movable piece decides whether `color` has a legal move. */
  lemma HasLegalMoveScan(b: Board, color: Color)
    ensures HasLegalMove(b, color) <==> AnyFrom(Movable(b, color), 0, 0)
  {
    AnyFromExact(Movable(b, color), 0, 0);
    if HasLegalMove(b, color) {
      var r, c :| CanMove(b, color, r, c);
      assert Movable(b, color)(r, c);
    }
  }

  /** A piece of `color` has no legal move exactly when each of its pseudo-legal moves, played on
      a copy of the board, leaves its own king in check. */
  lemma CannotMoveExact(b: Board, color: Color, r: int, c: int)
    requires OnBoard(r, c) && HoldsColor(b, Square(r, c), color)
    ensures !CanMove(b, color, r, c) <==>
              forall m :: m in PseudoMoves(b, r, c) ==> IsOnBoard(m) && InCheck(color, Simulate(b, r, c, m))
  {
    PseudoMovesOpen(b, r, c);
    forall m | m in PseudoMoves(b, r, c)
      ensures m in LegalMoves(b, r, c) <==> !InCheck(color, Simulate(b, r, c, m))
    {
      LegalMovesExact(b, r, c, m);
    }
    if CanMove(b, color, r, c) {
      var m := LegalMoves(b, r, c)[0];
      LegalMovesExact(b, r, c, m);
    }
  }

  /** Without a legal move, every pseudo-legal move of every piece of `color` leaves its king
      in check. */
  lemma NoLegalMoveSelfCheck(b: Board, color: Color, r: int, c: int, m: Square)
    requires !HasLegalMove(b, color)
    requires OnBoard(r, c) && HoldsColor(b, Square(r, c), color) && m in PseudoMoves(b, r, c)
    ensures IsOnBoard(m) && InCheck(color, Simulate(b, r, c, m))
  {
    assert !CanMove(b, color, r, c);
    CannotMoveExact(b, color, r, c);
  }

  /** With a legal move, some piece of `color` has a pseudo-legal move that leaves its king out
      of check. */
  lemma LegalMoveWitness(b: Board, color: Color) returns (r: int, c: int, m: Square)
    requires HasLegalMove(b, color)
    ensures OnBoard(r, c) && HoldsColor(b, Square(r, c), color) && m in PseudoMoves(b, r, c)
    ensures IsOnBoard(m) && !InCheck(color, Simulate(b, r, c, m))
  {
    r, c :| CanMove(b, color, r, c);
    m := LegalMoves(b, r, c)[0];
    LegalMovesExact(b, r, c, m);
  }

  /** The has-moves scan: every square holding a piece of `color` is asked for its legal moves;
      a non-empty answer sets the flag and leaves the column loop only, so the row loop goes on. */
  method HasAnyLegalMove(b: Board, color: Color) returns (hasMoves: bool)
    ensures hasMoves == HasLegalMove(b, color)
  {
    ghost var movable := Movable(b, color);
    HasLegalMoveScan(b, color);
    hasMoves := false;
    for r := 0 to 8
      invariant HasLegalMove(b, color) == (hasMoves || AnyFrom(movable, r, 0))
    {
      for c := 0 to 8
        invariant HasLegalMove(b, color) == (hasMoves || AnyFrom(movable, r, c))
      {
        if b[r][c] != None && b[r][c].value.color == color {
          var moves := GetValidMoves(b, r, c);
          if |moves| > 0 {
            hasMoves := true;
            break;
          }
        }
      }
    }
  }

  /** The status of the side to move: mate and stalemate when it has no legal move, told apart
      by check; otherwise play continues and the check flag says whether its king is attacked. */
  method Classify(b: Board, turn: Color) returns (status: Status)
    ensures status == Checkmate <==> !HasLegalMove(b, turn) && InCheck(turn, b)
    ensures status == Stalemate <==> !HasLegalMove(b, turn) && !InCheck(turn, b)
    ensures status.Playing? <==> HasLegalMove(b, turn)
    ensures status.Playing? ==> (status.check <==> InCheck(turn, b))
  {
    var hasMoves := HasAnyLegalMove(b, turn);
    if !hasMoves {
      var check := IsKingInCheck(turn, b);
      if check {
        status := Checkmate;
      } else {
        status := Stalemate;
      }
    } else {
      var check := IsKingInCheck(turn, b);
      status := Playing(check);
    }
  }
}
