/** What check detection and the legality filter decide: the king scan finds the first king in
    scan order, check is "no king, or that king is attacked", and the legal moves are the
    pseudo-legal moves, in their order, that do not leave the mover in check. */
module LegalityFacts {
  import opened ChessBoard
  import opened PseudoLegal
  import opened PseudoLegalFacts
  import opened Legality
  import opened Scan

  /** The cell at `s` holds the king of `color`. */
  predicate KingAt(b: Board, color: Color, s: Square)
  {
    IsOnBoard(s) && b[s.row][s.col] == KingOf(color)
  }

  /** No king of `color` stands on the board before `k` in scan order. */
  ghost predicate FirstKing(b: Board, color: Color, k: Square)
  {
    KingAt(b, color, k) && forall s :: Before(s, k) ==> !KingAt(b, color, s)
  }

  /** The scan from (r, c) answers None exactly when no king of `color` stands at or after
      (r, c), and otherwise the first such king. */
  lemma {:induction false} FindKingFromSpec(b: Board, color: Color, r: int, c: int)
    requires 0 <= r <= 8 && 0 <= c <= 8
    ensures FindKingFrom(b, color, r, c) == None ==>
              forall s :: !Before(s, Square(r, c)) ==> !KingAt(b, color, s)
    ensures FindKingFrom(b, color, r, c).Some? ==>
              var k := FindKingFrom(b, color, r, c).value;
              !Before(k, Square(r, c)) && KingAt(b, color, k) &&
              forall s :: !Before(s, Square(r, c)) && Before(s, k) ==> !KingAt(b, color, s)
    decreases 8 - r, 8 - c
  {
    if r == 8 {
    } else if c == 8 {
      FindKingFromSpec(b, color, r + 1, 0);
    } else if b[r][c] != KingOf(color) {
      FindKingFromSpec(b, color, r, c + 1);
    }
  }

  /** The king scan returns `k` exactly when `k` holds the first king of `color` in scan order. */
  lemma FindKingFirst(b: Board, color: Color, k: Square)
    ensures FindKing(b, color) == Some(k) <==> FirstKing(b, color, k)
  {
    FindKingFromSpec(b, color, 0, 0);
    if FirstKing(b, color, k) {
      assert !Before(k, Square(0, 0));
    }
  }

  /** The king scan finds nothing exactly when the board holds no king of `color`. */
  lemma FindKingNone(b: Board, color: Color)
    ensures FindKing(b, color) == None <==> forall s :: !KingAt(b, color, s)
  {
    FindKingFromSpec(b, color, 0, 0);
    if FindKing(b, color).Some? {
      assert KingAt(b, color, FindKing(b, color).value);
    }
  }

  /** A side with no king on the board counts as in check. */
  lemma NoKingInCheck(b: Board, color: Color)
    requires forall s :: !KingAt(b, color, s)
    ensures InCheck(color, b)
  {
    FindKingNone(b, color);
  }

  /** With a king on the board, check means: some enemy piece has the first king's square among
      its pseudo-legal moves. */
  lemma CheckIffAttacked(b: Board, color: Color, k: Square)
    requires FirstKing(b, color, k)
    ensures InCheck(color, b) <==>
              exists r, c :: OnBoard(r, c) && HoldsColor(b, Square(r, c), Opponent(color)) && k in PseudoMoves(b, r, c)
  {
    FindKingFirst(b, color, k);
  }

  /** An enemy rook, bishop or queen with a clear line along one of its directions to the first
      king of `color` gives check. */
  lemma SliderGivesCheck(b: Board, color: Color, r: int, c: int, d: Dir, k: nat)
    requires OnBoard(r, c) && b[r][c].Some? && b[r][c].value.color == Opponent(color) && IsSlider(b[r][c].value.kind)
    requires d in SlideDirs(b[r][c].value.kind) && k >= 1
    requires FirstKing(b, color, Along(r, c, d, k))
    requires forall i :: 1 <= i < k ==> EmptyAt(b, Along(r, c, d, i))
    ensures InCheck(color, b)
  {
    SliderRayExact(b, r, c, d, k);
    assert HoldsColor(b, Square(r, c), Opponent(color));
    CheckIffAttacked(b, color, Along(r, c, d, k));
  }

  /** A candidate survives the filter exactly when it is a candidate and, played on a copy of
      the board, leaves the king of `color` out of check. */
  lemma {:induction false} SafeMovesMember(b: Board, r: int, c: int, color: Color, cands: seq<Square>, m: Square)
    requires OnBoard(r, c) && forall m :: m in cands ==> IsOnBoard(m)
    ensures m in SafeMoves(b, r, c, color, cands) <==> m in cands && !InCheck(color, Simulate(b, r, c, m))
  {
    if cands != [] {
      var init := cands[..|cands| - 1];
      assert cands == init + [cands[|cands| - 1]];
      SafeMovesMember(b, r, c, color, init, m);
    }
  }

  /** The filter keeps the candidates in order: its result is the candidates at some strictly
      increasing list of positions. */
  lemma {:induction false} SafeMovesSubsequence(b: Board, r: int, c: int, color: Color, cands: seq<Square>)
    returns (idx: seq<int>)
    requires OnBoard(r, c) && forall m :: m in cands ==> IsOnBoard(m)
    ensures |idx| == |SafeMoves(b, r, c, color, cands)|
    ensures forall i :: 0 <= i < |idx| ==> 0 <= idx[i] < |cands| && SafeMoves(b, r, c, color, cands)[i] == cands[idx[i]]
    ensures forall i, j :: 0 <= i < j < |idx| ==> idx[i] < idx[j]
  {
    if cands == [] {
      idx := [];
    } else {
      var n := |cands| - 1;
      var init := cands[..n];
      assert forall m :: m in init ==> m in cands;
      idx := SafeMovesSubsequence(b, r, c, color, init);
      if !InCheck(color, Simulate(b, r, c, cands[n])) {
        idx := idx + [n];
      }
    }
  }

  /** A legal move of the piece on (r, c) is exactly a pseudo-legal move of a piece standing
      there after which, played on a copy of the board, the mover's king is not in check. */
  lemma LegalMovesExact(b: Board, r: int, c: int, m: Square)
    requires OnBoard(r, c)
    ensures m in LegalMoves(b, r, c) <==>
              b[r][c].Some? && m in PseudoMoves(b, r, c) && IsOnBoard(m) &&
              !InCheck(b[r][c].value.color, Simulate(b, r, c, m))
  {
    PseudoMovesOpen(b, r, c);
    if b[r][c].Some? {
      SafeMovesMember(b, r, c, b[r][c].value.color, PseudoMoves(b, r, c), m);
    }
  }

  /** The legal moves of a square are its pseudo-legal moves, in the same order, with some
      left out. */
  lemma LegalMovesSubsequence(b: Board, r: int, c: int) returns (idx: seq<int>)
    requires OnBoard(r, c)
    ensures |idx| == |LegalMoves(b, r, c)|
    ensures forall i :: 0 <= i < |idx| ==> 0 <= idx[i] < |PseudoMoves(b, r, c)| && LegalMoves(b, r, c)[i] == PseudoMoves(b, r, c)[idx[i]]
    ensures forall i, j :: 0 <= i < j < |idx| ==> idx[i] < idx[j]
  {
    PseudoMovesOpen(b, r, c);
    if b[r][c].Some? {
      idx := SafeMovesSubsequence(b, r, c, b[r][c].value.color, PseudoMoves(b, r, c));
    } else {
      idx := [];
    }
  }
}
