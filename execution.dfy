/** Playing a move on the board: the piece leaves its square for the destination, and a pawn
    reaching the far rank becomes a queen. Promotion swaps one of the mover's pieces for another
    of the mover's pieces, which no enemy move and no king search can tell apart, so a move that
    left the king safe on the trial copy leaves it safe when it is played for real. */
module MoveExecution {
  import opened ChessBoard
  import opened PseudoLegal
  import opened Legality
  import opened LegalityFacts

  /** The rank a pawn of colour `c` promotes on: row 0 for White, row 7 for Black. */
  function LastRank(c: Color): int
  {
    if c == White then 0 else 7
  }

  /** A pawn arriving at `to` on its last rank. */
  predicate Promotes(p: Option<Piece>, to: Square)
  {
    p.Some? && p.value.kind == Pawn && to.row == LastRank(p.value.color)
  }

  /** The board after playing from `from` to `to`: the origin is emptied, the destination gets
      the moved piece (a queen of its colour when a pawn reaches its last rank), and every other
      square keeps its contents. When origin and destination coincide, the emptying wins unless
      a promotion puts the queen back. */
  function AfterMove(b: Board, from: Square, to: Square): (a: Board)
    requires IsOnBoard(from) && IsOnBoard(to)
    ensures from != to ==> a[from.row][from.col] == None
    ensures a[to.row][to.col] ==
              if Promotes(b[from.row][from.col], to) then Some(Piece(b[from.row][from.col].value.color, Queen))
              else if from == to then None
              else b[from.row][from.col]
    ensures forall s :: IsOnBoard(s) && s != from && s != to ==> a[s.row][s.col] == b[s.row][s.col]
  {
    var moved := Simulate(b, from.row, from.col, to);
    if Promotes(b[from.row][from.col], to) then Put(moved, to, Some(Piece(b[from.row][from.col].value.color, Queen)))
    else moved
  }

  /** The colour standing on a cell, if any. */
  function ColorAt(x: Option<Piece>): Option<Color>
  {
    if x.None? then None else Some(x.value.color)
  }

  /** Two boards agree on which squares are occupied and by which colour; the kinds may differ. */
  predicate SameView(b1: Board, b2: Board)
  {
    forall r, c :: 0 <= r < 8 && 0 <= c < 8 ==> ColorAt(b1[r][c]) == ColorAt(b2[r][c])
  }

  /** A ray sees only occupancy and colour. */
  lemma {:induction false} RaySameView(b1: Board, b2: Board, color: Color, tr: int, tc: int, d: Dir)
    requires SameView(b1, b2)
    ensures Ray(b1, color, tr, tc, d) == Ray(b2, color, tr, tc, d)
    decreases StepsLeft(tr, d.0) + StepsLeft(tc, d.1)
  {
    if OnBoard(tr, tc) {
      assert ColorAt(b1[tr][tc]) == ColorAt(b2[tr][tc]);
      RaySameView(b1, b2, color, tr + d.0, tc + d.1, d);
    }
  }

  lemma {:induction false} SlidesSameView(b1: Board, b2: Board, color: Color, r: int, c: int, dirs: seq<Dir>)
    requires SameView(b1, b2)
    ensures Slides(b1, color, r, c, dirs) == Slides(b2, color, r, c, dirs)
  {
    if dirs != [] {
      var d := dirs[|dirs| - 1];
      SlidesSameView(b1, b2, color, r, c, dirs[..|dirs| - 1]);
      RaySameView(b1, b2, color, r + d.0, c + d.1, d);
    }
  }

  lemma {:induction false} LeapsSameView(b1: Board, b2: Board, color: Color, r: int, c: int, offsets: seq<(int, int)>)
    requires SameView(b1, b2)
    ensures Leaps(b1, color, r, c, offsets) == Leaps(b2, color, r, c, offsets)
  {
    if offsets != [] {
      var o := offsets[|offsets| - 1];
      LeapsSameView(b1, b2, color, r, c, offsets[..|offsets| - 1]);
      if OnBoard(r + o.0, c + o.1) {
        assert ColorAt(b1[r + o.0][c + o.1]) == ColorAt(b2[r + o.0][c + o.1]);
      }
    }
  }

  lemma {:induction false} PawnCapturesSameView(b1: Board, b2: Board, color: Color, r: int, c: int, offsets: seq<(int, int)>)
    requires SameView(b1, b2)
    ensures PawnCaptures(b1, color, r, c, offsets) == PawnCaptures(b2, color, r, c, offsets)
  {
    if offsets != [] {
      var o := offsets[|offsets| - 1];
      PawnCapturesSameView(b1, b2, color, r, c, offsets[..|offsets| - 1]);
      if OnBoard(r + o.0, c + o.1) {
        assert ColorAt(b1[r + o.0][c + o.1]) == ColorAt(b2[r + o.0][c + o.1]);
      }
    }
  }

  lemma PawnAdvanceSameView(b1: Board, b2: Board, color: Color, r: int, c: int)
    requires SameView(b1, b2) && OnBoard(r, c)
    ensures PawnAdvance(b1, color, r, c) == PawnAdvance(b2, color, r, c)
  {
  }

  /** The same piece on two boards that agree on occupancy and colours has the same
      pseudo-legal moves on both. */
  lemma PseudoMovesSameView(b1: Board, b2: Board, r: int, c: int)
    requires SameView(b1, b2) && OnBoard(r, c) && b1[r][c] == b2[r][c]
    ensures PseudoMoves(b1, r, c) == PseudoMoves(b2, r, c)
  {
    if b1[r][c].Some? {
      var p := b1[r][c].value;
      match p.kind
      case Pawn =>
        PawnAdvanceSameView(b1, b2, p.color, r, c);
        PawnCapturesSameView(b1, b2, p.color, r, c, PawnCaptureOffsets(p.color));
      case Knight => LeapsSameView(b1, b2, p.color, r, c, KnightOffsets);
      case King => LeapsSameView(b1, b2, p.color, r, c, KingOffsets);
      case _ => SlidesSameView(b1, b2, p.color, r, c, SlideDirs(p.kind));
    }
  }

  /** Attacks by `attacker` are the same on two boards that agree on occupancy and colours and
      on every piece of `attacker`. */
  lemma AttackedSameView(b1: Board, b2: Board, k: Square, attacker: Color)
    requires SameView(b1, b2)
    requires forall r, c :: OnBoard(r, c) && HoldsColor(b1, Square(r, c), attacker) ==> b1[r][c] == b2[r][c]
    ensures AttackedBy(b1, k, attacker) <==> AttackedBy(b2, k, attacker)
  {
    if AttackedBy(b1, k, attacker) {
      var r, c :| OnBoard(r, c) && HoldsColor(b1, Square(r, c), attacker) && k in PseudoMoves(b1, r, c);
      PseudoMovesSameView(b1, b2, r, c);
      assert HoldsColor(b2, Square(r, c), attacker);
    }
    if AttackedBy(b2, k, attacker) {
      var r, c :| OnBoard(r, c) && HoldsColor(b2, Square(r, c), attacker) && k in PseudoMoves(b2, r, c);
      assert ColorAt(b1[r][c]) == ColorAt(b2[r][c]);
      PseudoMovesSameView(b1, b2, r, c);
    }
  }

  /** Check is decided the same way on two boards that agree on occupancy and colours, on where
      the kings of `color` stand and on every enemy piece. */
  lemma InCheckSameView(b1: Board, b2: Board, color: Color)
    requires SameView(b1, b2)
    requires forall s :: KingAt(b1, color, s) <==> KingAt(b2, color, s)
    requires forall r, c :: OnBoard(r, c) && HoldsColor(b1, Square(r, c), Opponent(color)) ==> b1[r][c] == b2[r][c]
    ensures InCheck(color, b1) <==> InCheck(color, b2)
  {
    FindKingNone(b1, color);
    FindKingNone(b2, color);
    if FindKing(b1, color).Some? {
      var k := FindKing(b1, color).value;
      FindKingFirst(b1, color, k);
      FindKingFirst(b2, color, k);
      AttackedSameView(b1, b2, k, Opponent(color));
    }
  }

  /** Promotion does not change whether the mover is in check: the board after the real move
      and the trial copy without promotion agree on check for the mover's colour. */
  lemma PromotionKeepsCheck(b: Board, from: Square, to: Square)
    requires IsOnBoard(from) && IsOnBoard(to) && from != to && b[from.row][from.col].Some?
    ensures InCheck(b[from.row][from.col].value.color, AfterMove(b, from, to)) <==>
              InCheck(b[from.row][from.col].value.color, Simulate(b, from.row, from.col, to))
  {
    var color := b[from.row][from.col].value.color;
    var s := Simulate(b, from.row, from.col, to);
    var a := AfterMove(b, from, to);
    if Promotes(b[from.row][from.col], to) {
      assert a == Put(s, to, Some(Piece(color, Queen)));
      assert s[to.row][to.col] == b[from.row][from.col];
      InCheckSameView(a, s, color);
    }
  }
}
