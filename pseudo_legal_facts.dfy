/** What the pseudo-legal generator produces, piece kind by piece kind: exact descriptions of
    the rays of the sliding pieces, the jump tables of knight and king, and the pawn's moves. */
module PseudoLegalFacts {
  import opened ChessBoard
  import opened PseudoLegal

  /** Walking one step and then `i` more is walking `i + 1` steps. */
  lemma AlongShift(tr: int, tc: int, d: Dir, i: int)
    ensures Along(tr + d.0, tc + d.1, d, i) == Along(tr, tc, d, i + 1)
  {
  }

  /** Two different distances along one direction give two different squares. */
  lemma AlongDistinct(tr: int, tc: int, d: Dir, j: int, k: int)
    requires j != k
    ensures Along(tr, tc, d, j) != Along(tr, tc, d, k)
  {
  }

  /** From one origin, squares at positive distances along two directions coincide only when
      the directions and the distances do. */
  lemma AlongInjective(r: int, c: int, d1: Dir, k1: int, d2: Dir, k2: int)
    requires k1 >= 1 && k2 >= 1
    requires Along(r, c, d1, k1) == Along(r, c, d2, k2)
    ensures d1 == d2 && k1 == k2
  {
  }

  /** The squares before step `j` are all empty iff the first is and, from the next square
      (tr', tc'), the squares before step `j - 1` are. */
  lemma ClearShift(b: Board, tr: int, tc: int, d: Dir, j: nat, tr': int, tc': int)
    requires j >= 1 && tr' == tr + d.0 && tc' == tc + d.1
    ensures (forall i :: 0 <= i < j ==> EmptyAt(b, Along(tr, tc, d, i))) <==>
              EmptyAt(b, Square(tr, tc)) && (forall i :: 0 <= i < j - 1 ==> EmptyAt(b, Along(tr', tc', d, i)))
  {
    assert Along(tr, tc, d, 0) == Square(tr, tc);
    if forall i :: 0 <= i < j ==> EmptyAt(b, Along(tr, tc, d, i)) {
      forall i | 0 <= i < j - 1
        ensures EmptyAt(b, Along(tr', tc', d, i))
      {
        AlongShift(tr, tc, d, i);
      }
    }
    if EmptyAt(b, Square(tr, tc)) && forall i :: 0 <= i < j - 1 ==> EmptyAt(b, Along(tr', tc', d, i)) {
      forall i | 0 <= i < j
        ensures EmptyAt(b, Along(tr, tc, d, i))
      {
        if i > 0 {
          AlongShift(tr, tc, d, i - 1);
        }
      }
    }
  }

  /** The ray from (tr, tc) holds the square `j` steps along iff every square before it is on
      the board and empty and that square is on the board and not held by the mover's colour.
      So the ray yields each empty square up to the first occupied one, yields that one only
      when it holds an enemy piece, and yields nothing beyond it. */
  lemma {:induction false} RayExact(b: Board, color: Color, tr: int, tc: int, d: Dir, j: nat)
    ensures Along(tr, tc, d, j) in Ray(b, color, tr, tc, d) <==>
              (forall i :: 0 <= i < j ==> EmptyAt(b, Along(tr, tc, d, i))) && OpenTo(b, Along(tr, tc, d, j), color)
    decreases j
  {
    var s := Along(tr, tc, d, j);
    var ray := Ray(b, color, tr, tc, d);
    if j == 0 {
      assert s == Square(tr, tc);
      if EmptyAt(b, s) {
        assert ray[0] == s;
      }
    } else {
      AlongDistinct(tr, tc, d, j, 0);
      var tr', tc' := tr + d.0, tc + d.1;
      ClearShift(b, tr, tc, d, j, tr', tc');
      if EmptyAt(b, Square(tr, tc)) {
        assert ray == [Square(tr, tc)] + Ray(b, color, tr', tc', d);
        AlongShift(tr, tc, d, j - 1);
        RayExact(b, color, tr', tc', d, j - 1);
      } else {
        assert ray == [] || ray == [Square(tr, tc)];
      }
    }
  }

  /** Every square of a ray lies some whole number of steps along its direction. */
  lemma {:induction false} RayIndex(b: Board, color: Color, tr: int, tc: int, d: Dir, m: Square) returns (j: nat)
    requires m in Ray(b, color, tr, tc, d)
    ensures m == Along(tr, tc, d, j)
    decreases StepsLeft(tr, d.0) + StepsLeft(tc, d.1)
  {
    if m == Square(tr, tc) {
      j := 0;
    } else {
      var k := RayIndex(b, color, tr + d.0, tc + d.1, d, m);
      AlongShift(tr, tc, d, k);
      j := k + 1;
    }
  }

  /** A slider's destinations are exactly the union of its rays. */
  lemma {:induction false} SlidesMember(b: Board, color: Color, r: int, c: int, dirs: seq<Dir>, m: Square)
    ensures m in Slides(b, color, r, c, dirs) <==> exists i :: 0 <= i < |dirs| && m in DirRay(b, color, r, c, dirs[i])
  {
    if dirs != [] {
      var init := dirs[..|dirs| - 1];
      SlidesMember(b, color, r, c, init, m);
      if exists i :: 0 <= i < |init| && m in DirRay(b, color, r, c, init[i]) {
        var i :| 0 <= i < |init| && m in DirRay(b, color, r, c, init[i]);
        assert dirs[i] == init[i];
      }
      if exists i :: 0 <= i < |dirs| && m in DirRay(b, color, r, c, dirs[i]) {
        var i :| 0 <= i < |dirs| && m in DirRay(b, color, r, c, dirs[i]);
        if i < |init| {
          assert init[i] == dirs[i];
        }
      }
    }
  }

  /** Every destination of a rook, bishop or queen lies at a positive distance along one of
      its directions. */
  lemma SliderMoveOnLine(b: Board, r: int, c: int, m: Square) returns (d: Dir, k: nat)
    requires OnBoard(r, c) && b[r][c].Some? && IsSlider(b[r][c].value.kind)
    requires m in PseudoMoves(b, r, c)
    ensures d in SlideDirs(b[r][c].value.kind) && k >= 1 && m == Along(r, c, d, k)
  {
    var p := b[r][c].value;
    var dirs := SlideDirs(p.kind);
    SlidesMember(b, p.color, r, c, dirs, m);
    var i :| 0 <= i < |dirs| && m in DirRay(b, p.color, r, c, dirs[i]);
    d := dirs[i];
    var j := RayIndex(b, p.color, r + d.0, c + d.1, d, m);
    AlongShift(r, c, d, j);
    k := j + 1;
  }

  /** The ray cast from (r, c) along `d` holds the square `k >= 1` steps away iff the squares
      between are all empty and that square is on the board and not held by the mover's colour. */
  lemma DirRayExact(b: Board, color: Color, r: int, c: int, d: Dir, k: nat)
    requires k >= 1
    ensures Along(r, c, d, k) in DirRay(b, color, r, c, d) <==>
              (forall i :: 1 <= i < k ==> EmptyAt(b, Along(r, c, d, i))) && OpenTo(b, Along(r, c, d, k), color)
  {
    var r', c' := r + d.0, c + d.1;
    AlongShift(r, c, d, k - 1);
    RayExact(b, color, r', c', d, k - 1);
    ClearFromNext(b, r, c, d, k, r', c');
  }

  /** The squares strictly between (r, c) and step `k` are all empty iff, counted from the next
      square (r', c'), the squares before step `k - 1` are. */
  lemma ClearFromNext(b: Board, r: int, c: int, d: Dir, k: nat, r': int, c': int)
    requires k >= 1 && r' == r + d.0 && c' == c + d.1
    ensures (forall i :: 1 <= i < k ==> EmptyAt(b, Along(r, c, d, i))) <==>
              (forall i :: 0 <= i < k - 1 ==> EmptyAt(b, Along(r', c', d, i)))
  {
    if forall i :: 1 <= i < k ==> EmptyAt(b, Along(r, c, d, i)) {
      forall i | 0 <= i < k - 1
        ensures EmptyAt(b, Along(r', c', d, i))
      {
        AlongShift(r, c, d, i);
      }
    }
    if forall i :: 0 <= i < k - 1 ==> EmptyAt(b, Along(r', c', d, i)) {
      forall i | 1 <= i < k
        ensures EmptyAt(b, Along(r, c, d, i))
      {
        AlongShift(r, c, d, i - 1);
      }
    }
  }

  /** A square at positive distance along `d` is among a slider's destinations iff `d` is one
      of its directions and the ray along `d` itself reaches the square: rays along different
      directions never share a square. */
  lemma SlidesAlong(b: Board, color: Color, r: int, c: int, dirs: seq<Dir>, d: Dir, k: nat)
    requires k >= 1
    ensures Along(r, c, d, k) in Slides(b, color, r, c, dirs) <==> d in dirs && Along(r, c, d, k) in DirRay(b, color, r, c, d)
  {
    var m := Along(r, c, d, k);
    SlidesMember(b, color, r, c, dirs, m);
    if m in Slides(b, color, r, c, dirs) {
      var i :| 0 <= i < |dirs| && m in DirRay(b, color, r, c, dirs[i]);
      var d' := dirs[i];
      var j := RayIndex(b, color, r + d'.0, c + d'.1, d', m);
      AlongShift(r, c, d', j);
      AlongInjective(r, c, d, k, d', j + 1);
    }
    if d in dirs && m in DirRay(b, color, r, c, d) {
      var i :| 0 <= i < |dirs| && dirs[i] == d;
    }
  }

  /** For a rook, bishop or queen on (r, c) and one of its directions `d`: the square `k >= 1`
      steps along `d` is a destination iff the squares between are all empty and that square
      is on the board and not held by the mover's colour. So each ray yields every empty
      square up to the first occupied one, yields that one only when it holds an enemy piece,
      and yields nothing beyond it. */
  lemma SliderRayExact(b: Board, r: int, c: int, d: Dir, k: nat)
    requires OnBoard(r, c) && b[r][c].Some? && IsSlider(b[r][c].value.kind)
    requires d in SlideDirs(b[r][c].value.kind) && k >= 1
    ensures Along(r, c, d, k) in PseudoMoves(b, r, c) <==>
              (forall i :: 1 <= i < k ==> EmptyAt(b, Along(r, c, d, i))) && OpenTo(b, Along(r, c, d, k), b[r][c].value.color)
  {
    var p := b[r][c].value;
    assert PseudoMoves(b, r, c) == Slides(b, p.color, r, c, SlideDirs(p.kind));
    SlidesAlong(b, p.color, r, c, SlideDirs(p.kind), d, k);
    DirRayExact(b, p.color, r, c, d, k);
  }

  /** The jump targets are exactly the on-board squares, not held by the mover's colour, whose
      offset from (r, c) is in the table. */
  lemma {:induction false} LeapsExact(b: Board, color: Color, r: int, c: int, offsets: seq<(int, int)>, m: Square)
    ensures m in Leaps(b, color, r, c, offsets) <==> OpenTo(b, m, color) && (m.row - r, m.col - c) in offsets
  {
    if offsets != [] {
      var init, o := offsets[..|offsets| - 1], offsets[|offsets| - 1];
      LeapsExact(b, color, r, c, init, m);
      assert offsets == init + [o];
      assert (m.row - r, m.col - c) in offsets <==> (m.row - r, m.col - c) in init || (m.row - r, m.col - c) == o;
    }
  }

  function LeapOffsets(k: Kind): seq<(int, int)>
  {
    if k == Knight then KnightOffsets else KingOffsets
  }

  /** Knight and king destinations are exactly the on-board squares among their eight offsets
      that are empty or hold an enemy piece. */
  lemma LeaperMovesExact(b: Board, r: int, c: int, m: Square)
    requires OnBoard(r, c) && b[r][c].Some? && (b[r][c].value.kind == Knight || b[r][c].value.kind == King)
    ensures m in PseudoMoves(b, r, c) <==>
              OpenTo(b, m, b[r][c].value.color) && (m.row - r, m.col - c) in LeapOffsets(b[r][c].value.kind)
  {
    LeapsExact(b, b[r][c].value.color, r, c, LeapOffsets(b[r][c].value.kind), m);
  }

  /** A pawn's moves are its straight advance followed by its two diagonal captures. */
  lemma PawnMovesUnfold(b: Board, r: int, c: int, color: Color)
    requires OnBoard(r, c) && b[r][c] == Some(Piece(color, Pawn))
    ensures PseudoMoves(b, r, c) ==
              PawnAdvance(b, color, r, c) + PawnCapture(b, color, r + Forward(color), c + 1) + PawnCapture(b, color, r + Forward(color), c - 1)
  {
    PawnCapturesUnfold(b, color, r, c);
  }

  /** The pawn's straight moves: one step forward exactly when that square is empty; two steps
      exactly from the start row through two empty squares. Forward is toward row 0 for White
      and toward row 7 for Black. */
  lemma PawnAdvanceExact(b: Board, r: int, c: int, color: Color)
    requires OnBoard(r, c) && b[r][c] == Some(Piece(color, Pawn))
    ensures Square(r + Forward(color), c) in PseudoMoves(b, r, c) <==> EmptyAt(b, Square(r + Forward(color), c))
    ensures Square(r + 2 * Forward(color), c) in PseudoMoves(b, r, c) <==>
              r == StartRow(color) && EmptyAt(b, Square(r + Forward(color), c)) && EmptyAt(b, Square(r + 2 * Forward(color), c))
  {
    PawnMovesUnfold(b, r, c, color);
  }

  /** The pawn's diagonal moves: one step forward and sideways exactly onto an enemy piece. */
  lemma PawnCaptureExact(b: Board, r: int, c: int, color: Color)
    requires OnBoard(r, c) && b[r][c] == Some(Piece(color, Pawn))
    ensures Square(r + Forward(color), c + 1) in PseudoMoves(b, r, c) <==>
              IsOnBoard(Square(r + Forward(color), c + 1)) && HoldsColor(b, Square(r + Forward(color), c + 1), Opponent(color))
    ensures Square(r + Forward(color), c - 1) in PseudoMoves(b, r, c) <==>
              IsOnBoard(Square(r + Forward(color), c - 1)) && HoldsColor(b, Square(r + Forward(color), c - 1), Opponent(color))
  {
    PawnMovesUnfold(b, r, c, color);
  }

  /** A pawn moves nowhere but straight ahead (one or two rows) or diagonally ahead. */
  lemma PawnMovesOnly(b: Board, r: int, c: int, color: Color)
    requires OnBoard(r, c) && b[r][c] == Some(Piece(color, Pawn))
    ensures forall m :: m in PseudoMoves(b, r, c) ==>
              m == Square(r + Forward(color), c) || m == Square(r + 2 * Forward(color), c) ||
              m == Square(r + Forward(color), c + 1) || m == Square(r + Forward(color), c - 1)
  {
    PawnMovesUnfold(b, r, c, color);
  }

  lemma PawnCapturesUnfold(b: Board, color: Color, r: int, c: int)
    ensures PawnCaptures(b, color, r, c, PawnCaptureOffsets(color)) ==
              PawnCapture(b, color, r + Forward(color), c + 1) + PawnCapture(b, color, r + Forward(color), c - 1)
  {
    var offsets := PawnCaptureOffsets(color);
    var d := Forward(color);
    assert offsets[..1] == [(d, 1)];
    assert offsets[..1][..0] == [];
    assert PawnCaptures(b, color, r, c, offsets[..1]) == PawnCapture(b, color, r + d, c + 1);
    assert PawnCaptures(b, color, r, c, offsets) == PawnCaptures(b, color, r, c, offsets[..1]) + PawnCapture(b, color, r + d, c - 1);
  }

  /** No piece may stay where it is: the origin is never a destination. */
  lemma NoNullMove(b: Board, r: int, c: int)
    requires OnBoard(r, c)
    ensures Square(r, c) !in PseudoMoves(b, r, c)
  {
    if b[r][c].Some? {
      var p := b[r][c].value;
      if p.kind == Pawn {
        PawnMovesOnly(b, r, c, p.color);
      } else if p.kind == Knight || p.kind == King {
        LeaperMovesExact(b, r, c, Square(r, c));
      } else {
        forall m | m in PseudoMoves(b, r, c)
          ensures m != Square(r, c)
        {
          var d, k := SliderMoveOnLine(b, r, c, m);
          AlongDistinct(r, c, d, k, 0);
        }
      }
    }
  }

  /** Every pseudo-legal destination is on the board and not held by the mover's colour; an
      empty square has no destinations. */
  lemma PseudoMovesOpen(b: Board, r: int, c: int)
    requires OnBoard(r, c)
    ensures b[r][c].None? ==> PseudoMoves(b, r, c) == []
    ensures b[r][c].Some? ==> forall m :: m in PseudoMoves(b, r, c) ==> OpenTo(b, m, b[r][c].value.color)
  {
    if b[r][c].Some? {
      var p := b[r][c].value;
      if p.kind == Pawn {
        PawnMovesUnfold(b, r, c, p.color);
      } else if p.kind == Knight || p.kind == King {
        forall m | m in PseudoMoves(b, r, c)
          ensures OpenTo(b, m, p.color)
        {
          LeaperMovesExact(b, r, c, m);
        }
      } else {
        forall m | m in PseudoMoves(b, r, c)
          ensures OpenTo(b, m, p.color)
        {
          var d, k := SliderMoveOnLine(b, r, c, m);
          SliderRayExact(b, r, c, d, k);
        }
      }
    }
  }
}
