/** Pseudo-legal move generation: every destination a piece's movement pattern and the
    occupancy of the board allow, without regard to the safety of the mover's own king.
    The functions are the specification; GetPseudoLegalMoves is the loop-based generator. */
module PseudoLegal {
  import opened ChessBoard

  /** A unit step along a rank, a file or a diagonal. */
  type Dir = d: (int, int) | -1 <= d.0 <= 1 && -1 <= d.1 <= 1 && d != (0, 0) witness (0, 1)

  const RookDirs: seq<Dir> := [(0, 1), (0, -1), (1, 0), (-1, 0)]
  const BishopDirs: seq<Dir> := [(1, 1), (1, -1), (-1, 1), (-1, -1)]
  const QueenDirs: seq<Dir> := [(0, 1), (0, -1), (1, 0), (-1, 0), (1, 1), (1, -1), (-1, 1), (-1, -1)]

  const KnightOffsets: seq<(int, int)> := [(2, 1), (2, -1), (-2, 1), (-2, -1), (1, 2), (1, -2), (-1, 2), (-1, -2)]
  const KingOffsets: seq<(int, int)> := [(0, 1), (0, -1), (1, 0), (-1, 0), (1, 1), (1, -1), (-1, 1), (-1, -1)]

  predicate IsSlider(k: Kind)
  {
    k == Rook || k == Bishop || k == Queen
  }

  /** The ray directions of a sliding piece (the direction table of `getPseudoLegalMoves` in Script.js). */
  function SlideDirs(k: Kind): seq<Dir>
  {
    match k
    case Rook => RookDirs
    case Bishop => BishopDirs
    case Queen => QueenDirs
    case _ => []
  }

  /** White pawns advance toward row 0, Black pawns toward row 7. */
  function Forward(c: Color): int
  {
    if c == White then -1 else 1
  }

  function StartRow(c: Color): int
  {
    if c == White then 6 else 1
  }

  /** `t + i * s` for a unit step `s`, written without multiplication. */
  function Offset(t: int, s: int, i: int): int
  {
    if s > 0 then t + i else if s < 0 then t - i else t
  }

  /** The square `i` steps from (tr, tc) in direction `d`. */
  function Along(tr: int, tc: int, d: Dir, i: int): Square
  {
    Square(Offset(tr, d.0, i), Offset(tc, d.1, i))
  }

  /** How many more steps of size `step` coordinate `t` can take before it leaves [0, 8). */
  function StepsLeft(t: int, step: int): nat
  {
    if step > 0 then (if t <= 8 then 8 - t else 0)
    else if step < 0 then (if t >= -1 then t + 1 else 0)
    else 0
  }

  /** The destinations a sliding piece of colour `color` reaches along `d`, starting with
      (tr, tc): empty squares continue the ray; the first occupied square ends it and is
      a destination only when it holds a piece of the other colour. */
  function Ray(b: Board, color: Color, tr: int, tc: int, d: Dir): seq<Square>
    decreases StepsLeft(tr, d.0) + StepsLeft(tc, d.1)
  {
    if !OnBoard(tr, tc) then []
    else if b[tr][tc].None? then [Square(tr, tc)] + Ray(b, color, tr + d.0, tc + d.1, d)
    else if b[tr][tc].value.color != color then [Square(tr, tc)]
    else []
  }

  /** The ray cast from the piece on (r, c) in direction `d` (the piece's own square excluded). */
  function DirRay(b: Board, color: Color, r: int, c: int, d: Dir): seq<Square>
  {
    Ray(b, color, r + d.0, c + d.1, d)
  }

  /** The rays of the piece on (r, c) along `dirs`, concatenated in order. */
  function Slides(b: Board, color: Color, r: int, c: int, dirs: seq<Dir>): seq<Square>
  {
    if dirs == [] then []
    else Slides(b, color, r, c, dirs[..|dirs| - 1]) + DirRay(b, color, r, c, dirs[|dirs| - 1])
  }

  /** The single-jump target (tr, tc) if it is on the board and not held by the mover's colour. */
  function Leap(b: Board, color: Color, tr: int, tc: int): seq<Square>
  {
    if OnBoard(tr, tc) && (b[tr][tc].None? || b[tr][tc].value.color != color) then [Square(tr, tc)] else []
  }

  /** The jump targets of a knight or king on (r, c), one per offset, in offset order. */
  function Leaps(b: Board, color: Color, r: int, c: int, offsets: seq<(int, int)>): seq<Square>
  {
    if offsets == [] then []
    else
      var o := offsets[|offsets| - 1];
      Leaps(b, color, r, c, offsets[..|offsets| - 1]) + Leap(b, color, r + o.0, c + o.1)
  }

  /** A pawn's straight advance: one step onto an empty square, then a second step from the
      start row when that square is empty too. */
  function PawnAdvance(b: Board, color: Color, r: int, c: int): seq<Square>
    requires OnBoard(r, c)
  {
    var d := Forward(color);
    if OnBoard(r + d, c) && b[r + d][c].None? then
      [Square(r + d, c)] + (if r == StartRow(color) && b[r + 2 * d][c].None? then [Square(r + 2 * d, c)] else [])
    else []
  }

  /** A diagonal pawn target: only onto a square holding a piece of the other colour. */
  function PawnCapture(b: Board, color: Color, tr: int, tc: int): seq<Square>
  {
    if OnBoard(tr, tc) && b[tr][tc].Some? && b[tr][tc].value.color != color then [Square(tr, tc)] else []
  }

  function PawnCaptures(b: Board, color: Color, r: int, c: int, offsets: seq<(int, int)>): seq<Square>
  {
    if offsets == [] then []
    else
      var o := offsets[|offsets| - 1];
      PawnCaptures(b, color, r, c, offsets[..|offsets| - 1]) + PawnCapture(b, color, r + o.0, c + o.1)
  }

  function PawnCaptureOffsets(color: Color): seq<(int, int)>
  {
    [(Forward(color), 1), (Forward(color), -1)]
  }

  function PawnMoves(b: Board, color: Color, r: int, c: int): seq<Square>
    requires OnBoard(r, c)
  {
    PawnAdvance(b, color, r, c) + PawnCaptures(b, color, r, c, PawnCaptureOffsets(color))
  }

  /** All pseudo-legal destinations of the piece on (r, c); none for an empty square. */
  function PseudoMoves(b: Board, r: int, c: int): seq<Square>
    requires OnBoard(r, c)
  {
    match b[r][c]
    case None => []
    case Some(p) =>
      match p.kind
      case Pawn => PawnMoves(b, p.color, r, c)
      case Knight => Leaps(b, p.color, r, c, KnightOffsets)
      case King => Leaps(b, p.color, r, c, KingOffsets)
      case _ => Slides(b, p.color, r, c, SlideDirs(p.kind))
  }

  /** The generator as `getPseudoLegalMoves` in Script.js runs it: one loop over the offset or
      direction table of the piece, and for sliding pieces an inner loop that walks each ray
      until it is blocked. */
  method GetPseudoLegalMoves(b: Board, r: int, c: int) returns (moves: seq<Square>)
    requires OnBoard(r, c)
    ensures moves == PseudoMoves(b, r, c)
  {
    if b[r][c] == None {
      return [];
    }
    var color, kind := b[r][c].value.color, b[r][c].value.kind;
    if kind == Pawn {
      moves := GeneratePawnMoves(b, color, r, c);
    } else if kind == Knight {
      moves := GenerateLeaps(b, color, r, c, KnightOffsets);
    } else if kind == King {
      moves := GenerateLeaps(b, color, r, c, KingOffsets);
    } else {
      moves := GenerateSlides(b, color, r, c, SlideDirs(kind));
    }
  }

  method GeneratePawnMoves(b: Board, color: Color, r: int, c: int) returns (moves: seq<Square>)
    requires OnBoard(r, c)
    ensures moves == PawnMoves(b, color, r, c)
  {
    moves := [];
    var d := Forward(color);
    if OnBoard(r + d, c) && b[r + d][c] == None {
      moves := moves + [Square(r + d, c)];
      if r == StartRow(color) && b[r + 2 * d][c] == None {
        moves := moves + [Square(r + 2 * d, c)];
      }
    }
    var captures := GeneratePawnCaptures(b, color, r, c, PawnCaptureOffsets(color));
    moves := moves + captures;
  }

  /** The loop over the two forward diagonals of a pawn. */
  method GeneratePawnCaptures(b: Board, color: Color, r: int, c: int, offsets: seq<(int, int)>) returns (moves: seq<Square>)
    ensures moves == PawnCaptures(b, color, r, c, offsets)
  {
    moves := [];
    for i := 0 to |offsets|
      invariant moves == PawnCaptures(b, color, r, c, offsets[..i])
    {
      var tr, tc := r + offsets[i].0, c + offsets[i].1;
      if OnBoard(tr, tc) && b[tr][tc] != None && b[tr][tc].value.color != color {
        moves := moves + [Square(tr, tc)];
      }
      assert offsets[..i + 1][..i] == offsets[..i];
    }
    assert offsets[..|offsets|] == offsets;
  }

  /** The knight and king loop (`getPseudoLegalMoves` in Script.js writes it twice, once per
      offset table). */
  method GenerateLeaps(b: Board, color: Color, r: int, c: int, offsets: seq<(int, int)>) returns (moves: seq<Square>)
    ensures moves == Leaps(b, color, r, c, offsets)
  {
    moves := [];
    for i := 0 to |offsets|
      invariant moves == Leaps(b, color, r, c, offsets[..i])
    {
      var tr, tc := r + offsets[i].0, c + offsets[i].1;
      if OnBoard(tr, tc) && (b[tr][tc] == None || b[tr][tc].value.color != color) {
        moves := moves + [Square(tr, tc)];
      }
      assert offsets[..i + 1][..i] == offsets[..i];
    }
    assert offsets[..|offsets|] == offsets;
  }

  method GenerateSlides(b: Board, color: Color, r: int, c: int, dirs: seq<Dir>) returns (moves: seq<Square>)
    ensures moves == Slides(b, color, r, c, dirs)
  {
    moves := [];
    for i := 0 to |dirs|
      invariant moves == Slides(b, color, r, c, dirs[..i])
    {
      var d := dirs[i];
      ghost var before := moves;
      var tr, tc := r + d.0, c + d.1;
      while OnBoard(tr, tc)
        invariant moves + Ray(b, color, tr, tc, d) == before + DirRay(b, color, r, c, d)
        decreases StepsLeft(tr, d.0) + StepsLeft(tc, d.1)
      {
        if b[tr][tc] == None {
          moves := moves + [Square(tr, tc)];
        } else {
          if b[tr][tc].value.color != color {
            moves := moves + [Square(tr, tc)];
          }
          break;
        }
        tr, tc := tr + d.0, tc + d.1;
      }
      assert dirs[..i + 1][..i] == dirs[..i];
    }
    assert dirs[..|dirs|] == dirs;
  }
}
