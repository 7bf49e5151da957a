/** Check detection and the legality filter. A king is in check when some enemy piece's
    pseudo-legal moves reach its square; a pseudo-legal move is legal when, played on a copy
    of the board, it leaves the mover's king out of check. Check detection uses only the
    pseudo-legal generator, never the legality filter. */
module Legality {
  import opened ChessBoard
  import opened PseudoLegal
  import opened PseudoLegalFacts
  import opened Scan

  function KingOf(color: Color): Option<Piece>
  {
    Some(Piece(color, King))
  }

  /** The first square at or after (r, c) in scan order that holds the king of `color`. */
  function FindKingFrom(b: Board, color: Color, r: int, c: int): Option<Square>
    requires 0 <= r <= 8 && 0 <= c <= 8
    decreases 8 - r, 8 - c
  {
    if r == 8 then None
    else if c == 8 then FindKingFrom(b, color, r + 1, 0)
    else if b[r][c] == KingOf(color) then Some(Square(r, c))
    else FindKingFrom(b, color, r, c + 1)
  }

  /** The square of the king of `color` that the scan meets first, if there is one. */
  function FindKing(b: Board, color: Color): Option<Square>
  {
    FindKingFrom(b, color, 0, 0)
  }

  /** Some piece of colour `attacker` has `k` among its pseudo-legal destinations. */
  ghost predicate AttackedBy(b: Board, k: Square, attacker: Color)
  {
    exists r, c :: OnBoard(r, c) && HoldsColor(b, Square(r, c), attacker) && k in PseudoMoves(b, r, c)
  }

  /** The king of `color` is attacked; a board without that king counts as check. */
  ghost predicate InCheck(color: Color, b: Board)
  {
    match FindKing(b, color)
    case None => true
    case Some(k) => AttackedBy(b, k, Opponent(color))
  }

  /** The board after moving whatever is on (r, c) to `to` and emptying (r, c): the throwaway
      copy on which a candidate move is tried. No promotion happens here. */
  function Simulate(b: Board, r: int, c: int, to: Square): Board
    requires OnBoard(r, c) && IsOnBoard(to)
  {
    Put(Put(b, to, b[r][c]), Square(r, c), None)
  }

  /** The candidates, in order, after which the king of `color` is not in check. */
  ghost function SafeMoves(b: Board, r: int, c: int, color: Color, cands: seq<Square>): seq<Square>
    requires OnBoard(r, c) && forall m :: m in cands ==> IsOnBoard(m)
  {
    if cands == [] then []
    else
      var m := cands[|cands| - 1];
      SafeMoves(b, r, c, color, cands[..|cands| - 1]) + (if InCheck(color, Simulate(b, r, c, m)) then [] else [m])
  }

  /** The legal moves of the piece on (r, c): its pseudo-legal moves that leave its own king
      out of check. An empty square has none. */
  ghost function LegalMoves(b: Board, r: int, c: int): (moves: seq<Square>)
    requires OnBoard(r, c)
    ensures b[r][c].None? ==> moves == []
  {
    match b[r][c]
    case None => []
    case Some(p) =>
      PseudoMovesOpen(b, r, c);
      SafeMoves(b, r, c, p.color, PseudoMoves(b, r, c))
  }

  /** Check detection as `isKingInCheck` in Script.js runs it: find the king, then look for an
      attacker. */
  method IsKingInCheck(color: Color, b: Board) returns (inCheck: bool)
    ensures inCheck == InCheck(color, b)
  {
    var kingPos := FindKingSquare(b, color);
    if kingPos == None {
      return true;
    }
    inCheck := IsAttacked(b, kingPos.value, Opponent(color));
  }

  /** The king scan: rows, then columns, stopping at the first king of `color`. */
  method FindKingSquare(b: Board, color: Color) returns (kingPos: Option<Square>)
    ensures kingPos == FindKing(b, color)
  {
    kingPos := None;
    var r := 0;
    while r < 8
      invariant 0 <= r <= 8
      invariant kingPos == None && FindKing(b, color) == FindKingFrom(b, color, r, 0)
    {
      var c := 0;
      while c < 8
        invariant 0 <= c <= 8
        invariant kingPos == None && FindKing(b, color) == FindKingFrom(b, color, r, c)
      {
        if b[r][c] == KingOf(color) {
          kingPos := Some(Square(r, c));
          break;
        }
        c := c + 1;
      }
      if kingPos != None {
        break;
      }
      r := r + 1;
    }
  }

  /** The squares holding a piece of colour `attacker` with `k` among its pseudo-legal moves, as
      a predicate on coordinates. */
  ghost function Attackers(b: Board, k: Square, attacker: Color): (int, int) -> bool
  {
    (r, c) => OnBoard(r, c) && HoldsColor(b, Square(r, c), attacker) && k in PseudoMoves(b, r, c)
  }

  /** Scanning the whole board for an attacker decides whether `k` is attacked. */
  lemma AttackedByScan(b: Board, k: Square, attacker: Color)
    ensures AttackedBy(b, k, attacker) <==> AnyFrom(Attackers(b, k, attacker), 0, 0)
  {
    AnyFromExact(Attackers(b, k, attacker), 0, 0);
    if AttackedBy(b, k, attacker) {
      var r, c :| OnBoard(r, c) && HoldsColor(b, Square(r, c), attacker) && k in PseudoMoves(b, r, c);
      assert Attackers(b, k, attacker)(r, c);
    }
  }

  /** The attacker scan: every piece of colour `enemy`, returning as soon as one of them has
      `k` among its pseudo-legal moves. */
  method IsAttacked(b: Board, k: Square, enemy: Color) returns (attacked: bool)
    ensures attacked == AttackedBy(b, k, enemy)
  {
    ghost var attackers := Attackers(b, k, enemy);
    AttackedByScan(b, k, enemy);
    for r := 0 to 8
      invariant AttackedBy(b, k, enemy) == AnyFrom(attackers, r, 0)
    {
      for c := 0 to 8
        invariant AttackedBy(b, k, enemy) == AnyFrom(attackers, r, c)
      {
        if b[r][c] != None && b[r][c].value.color == enemy {
          var moves := GetPseudoLegalMoves(b, r, c);
          if k in moves {
            return true;
          }
        }
      }
    }
    return false;
  }

  /** The legality filter as `getValidMoves` in Script.js runs it: each pseudo-legal move is
      played on a copy of the board (`Simulate`) and kept when the mover's king is then not in
      check. */
  method GetValidMoves(b: Board, r: int, c: int) returns (valid: seq<Square>)
    requires OnBoard(r, c)
    ensures valid == LegalMoves(b, r, c)
  {
    if b[r][c] == None {
      // `getValidMoves` reads a colour from the empty tag, but the generator returns no
      // candidates to try.
      return [];
    }
    var color := b[r][c].value.color;
    var pseudo := GetPseudoLegalMoves(b, r, c);
    PseudoMovesOpen(b, r, c);
    assert forall m :: m in pseudo ==> IsOnBoard(m);
    valid := [];
    for i := 0 to |pseudo|
      invariant forall m :: m in pseudo[..i] ==> IsOnBoard(m)
      invariant valid == SafeMoves(b, r, c, color, pseudo[..i])
    {
      var m := pseudo[i];
      assert m in pseudo;
      var temp := b;
      temp := Put(temp, m, temp[r][c]);
      temp := Put(temp, Square(r, c), None);
      var check := IsKingInCheck(color, temp);
      if !check {
        valid := valid + [m];
      }
      assert pseudo[..i + 1][..i] == pseudo[..i];
    }
    assert pseudo[..|pseudo|] == pseudo;
  }
}
