/** The board state of the chess rules engine: pieces, squares and the 8x8 grid. */
module ChessBoard {

  datatype Option<+T> = None | Some(value: T)

  datatype Color = White | Black

  datatype Kind = Pawn | Knight | Bishop | Rook | Queen | King

  /** A piece is a colour and a kind (the two-letter tags of Script.js such as "wp" and "bk"). */
  datatype Piece = Piece(color: Color, kind: Kind)

  /** A (row, column) pair; row 0 is Black's back rank, row 7 is White's. */
  datatype Square = Square(row: int, col: int)

  /** One rank of the board: eight cells, each empty or holding a piece. */
  type Row = s: seq<Option<Piece>> | |s| == 8
    witness [None, None, None, None, None, None, None, None]

  /** The 8x8 grid, indexed first by row, then by column. */
  type Board = s: seq<Row> | |s| == 8
    witness [EmptyRow, EmptyRow, EmptyRow, EmptyRow, EmptyRow, EmptyRow, EmptyRow, EmptyRow]

  const EmptyRow: Row := [None, None, None, None, None, None, None, None]

  const EmptyBoard: Board := [EmptyRow, EmptyRow, EmptyRow, EmptyRow, EmptyRow, EmptyRow, EmptyRow, EmptyRow]

  function Opponent(c: Color): (o: Color)
    ensures o != c
  {
    if c == White then Black else White
  }

  /** Both coordinates lie in [0, 8). */
  predicate OnBoard(r: int, c: int)
  {
    0 <= r < 8 && 0 <= c < 8
  }

  predicate IsOnBoard(s: Square)
  {
    OnBoard(s.row, s.col)
  }

  /** The cell at `s` holds a piece of colour `color`. */
  predicate HoldsColor(b: Board, s: Square, color: Color)
    requires IsOnBoard(s)
  {
    b[s.row][s.col].Some? && b[s.row][s.col].value.color == color
  }

  /** The cell at `s` is on the board and is empty or holds a piece of another colour than `color`:
      a square a piece of `color` may move to by the occupancy rule. */
  predicate OpenTo(b: Board, s: Square, color: Color)
  {
    IsOnBoard(s) && !HoldsColor(b, s, color)
  }

  /** The cell at `s` is on the board and empty. */
  predicate EmptyAt(b: Board, s: Square)
  {
    IsOnBoard(s) && b[s.row][s.col].None?
  }

  /** The board with the cell at `s` replaced by `x`. */
  function Put(b: Board, s: Square, x: Option<Piece>): Board
    requires IsOnBoard(s)
  {
    b[s.row := b[s.row][s.col := x]]
  }

  function BackRank(c: Color): Row
  {
    [Some(Piece(c, Rook)), Some(Piece(c, Knight)), Some(Piece(c, Bishop)), Some(Piece(c, Queen)),
     Some(Piece(c, King)), Some(Piece(c, Bishop)), Some(Piece(c, Knight)), Some(Piece(c, Rook))]
  }

  function PawnRank(c: Color): Row
  {
    var p := Some(Piece(c, Pawn));
    [p, p, p, p, p, p, p, p]
  }

  /** The standard starting position: Black on rows 0 and 1, White on rows 6 and 7. */
  const InitialBoard: Board :=
    [BackRank(Black), PawnRank(Black), EmptyRow, EmptyRow, EmptyRow, EmptyRow, PawnRank(White), BackRank(White)]
}
