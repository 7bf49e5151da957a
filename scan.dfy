/** The row-by-row, column-by-column board scan shared by the king search, the attacker search
    and the has-moves search. */
module Scan {
  import opened ChessBoard

  /** `s` comes before `t` in the row-by-row, column-by-column scan order. */
  predicate Before(s: Square, t: Square)
  {
    s.row < t.row || (s.row == t.row && s.col < t.col)
  }

  /** Some square at or after (r, c) in scan order satisfies `p`. */
  ghost predicate AnyFrom(p: (int, int) -> bool, r: int, c: int)
    requires 0 <= r <= 8 && 0 <= c <= 8
    decreases 8 - r, 8 - c
  {
    if r == 8 then false
    else if c == 8 then AnyFrom(p, r + 1, 0)
    else p(r, c) || AnyFrom(p, r, c + 1)
  }

  /** The scan from (r, c) succeeds exactly when a square at or after (r, c) satisfies `p`. */
  lemma {:induction false} AnyFromExact(p: (int, int) -> bool, r: int, c: int)
    requires 0 <= r <= 8 && 0 <= c <= 8
    ensures AnyFrom(p, r, c) <==> exists r', c' :: OnBoard(r', c') && !Before(Square(r', c'), Square(r, c)) && p(r', c')
    decreases 8 - r, 8 - c
  {
    if r == 8 {
    } else if c == 8 {
      AnyFromExact(p, r + 1, 0);
    } else {
      AnyFromExact(p, r, c + 1);
      if exists r', c' :: OnBoard(r', c') && !Before(Square(r', c'), Square(r, c)) && p(r', c') {
        var r', c' :| OnBoard(r', c') && !Before(Square(r', c'), Square(r, c)) && p(r', c');
        if (r', c') != (r, c) {
          assert !Before(Square(r', c'), Square(r, c + 1));
        }
      }
    }
  }
}
