/** The game state: the board, updated in place as moves are played, and the colour to move. */
module ChessGame {
  import opened ChessBoard
  import opened PseudoLegalFacts
  import opened Legality
  import opened LegalityFacts
  import opened MoveExecution

  class Game {
    var board: Board
    var turn: Color

    /** A new game: a fresh copy of the starting position, White to move. */
    constructor ()
      ensures board == InitialBoard && turn == White
    {
      board := InitialBoard;
      turn := White;
    }

    /** Plays from `from` to `to` without checking legality: the piece is written to the
        destination, the origin is cleared, and a pawn on its last rank becomes a queen. */
    method ExecuteMove(from: Square, to: Square)
      requires IsOnBoard(from) && IsOnBoard(to)
      modifies this
      ensures board == AfterMove(old(board), from, to)
      ensures turn == old(turn)
    {
      var piece := board[from.row][from.col];
      board := Put(board, to, piece);
      board := Put(board, from, None);
      if piece.Some? && piece.value.kind == Pawn {
        if (piece.value.color == White && to.row == 0) || (piece.value.color == Black && to.row == 7) {
          board := Put(board, to, Some(Piece(piece.value.color, Queen)));
        }
      }
    }

    /** A move attempt by the side to move: when `from` holds one of its pieces and `to` is
        among that piece's legal moves, the move is played and the turn passes; otherwise
        nothing changes. A played move never leaves the mover's own king in check. */
    method PlayMove(from: Square, to: Square) returns (played: bool)
      requires IsOnBoard(from) && IsOnBoard(to)
      modifies this
      ensures played <==> HoldsColor(old(board), from, old(turn)) && to in LegalMoves(old(board), from.row, from.col)
      ensures played ==> board == AfterMove(old(board), from, to) && turn == Opponent(old(turn))
      ensures played ==> !InCheck(old(turn), board)
      ensures !played ==> board == old(board) && turn == old(turn)
    {
      if board[from.row][from.col] != None && board[from.row][from.col].value.color == turn {
        var moves := GetValidMoves(board, from.row, from.col);
        if to in moves {
          LegalMovesExact(board, from.row, from.col, to);
          NoNullMove(board, from.row, from.col);
          PromotionKeepsCheck(board, from, to);
          ExecuteMove(from, to);
          turn := Opponent(turn);
          return true;
        }
      }
      return false;
    }
  }
}
