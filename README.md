# Chess rules core of Script.js, modelled and verified in Dafny

`Script.js` is a browser chess game whose rules engine decides what the pieces may do. This
project models that engine and proves what it promises. The engine has five parts:

- **Pseudo-legal move generation** (`getPseudoLegalMoves`). This lists every destination a
  piece's movement pattern and the occupancy of the board allow:
  - pawn steps, double steps and diagonal captures;
  - the knight and king offset tables;
  - the rook, bishop and queen rays, which stop at the first occupied square.
- **The legality filter** (`getValidMoves`). Each pseudo-legal move is tried on a copy of the
  board. It is kept when the mover's king is then not in check.
- **Check detection** (`isKingInCheck`). It scans for the king and then for an enemy piece
  whose pseudo-legal moves reach the king's square. A side with no king counts as in check.
  This part uses only the pseudo-legal generator, never the legality filter.
- **Move execution** (`executeMove`). The piece moves, its origin is cleared, and a pawn that
  reaches its last rank becomes a queen.
- **The status decision** (`updateStatus`). No legal move while in check is checkmate. No legal
  move out of check is stalemate.

## Structure

The model keeps the source's structure:

- The board is an 8x8 grid of `Option<Piece>`.
- Each scanning loop of the source is a Dafny `method` with the same loops, breaks and early
  returns. Its contract ties it to a specification function:
  - `PseudoMoves`, `Ray`, `Slides`, `Leaps` and `PawnMoves` for move generation;
  - `FindKing` and `InCheck` for check detection;
  - `LegalMoves` for the legality filter;
  - `HasLegalMove` for the has-moves scan.
- The lemmas then state what those functions mean, independently of how they are computed.
- The mutable game state (the board and whose turn it is) is the class `ChessGame.Game`. Its
  methods update these fields in place.

Files:

- `board.dfy`: pieces, squares, the board, `InitialBoard`.
- `pseudo_legal.dfy`: the generator, as specification functions and loop methods.
- `pseudo_legal_facts.dfy`: exact descriptions of each piece's moves.
- `scan.dfy`: the row-by-row board scan.
- `legality.dfy`: check detection and the legality filter.
- `legality_facts.dfy`: what the king scan, check and the filter decide.
- `status.dfy`: the has-moves scan and the checkmate/stalemate classification.
- `execution.dfy`: the board after a played move; promotion never changes the mover's check status.
- `game.dfy`: the game object: new game, move execution, a move attempt with the turn toggle.
- `scenarios.dfy`: concrete positions.

Three behaviours of Script.js that the model keeps:

- **The has-moves scan leaves only the column loop.** The `break` in `updateStatus` ends the
  column loop, and the row loop goes on. `HasAnyLegalMove` keeps those loops and still returns
  the existential `HasLegalMove`.
- **An empty square has no legal moves.** `getValidMoves` on an empty square returns `[]`,
  because the generator returns `[]` for it. `LegalMoves` and `GetValidMoves` do the same.
- **Only the first king counts.** Check detection looks only at the first king of the colour
  found in row-by-row order (`FindKing`).

The trial move of the legality filter is `Legality.Simulate`: on a copy of the board, the piece
is written to the destination and its origin is cleared, with no promotion.

## Model

| member | source | states |
|---|---|---|
| PseudoLegal.GetPseudoLegalMoves | Script.js:162-245 | the generator's loops compute exactly `PseudoMoves`, the per-kind specification (empty square: no moves) |
| PseudoLegal.GeneratePawnMoves | Script.js:181-202 | the pawn branch computes the straight advance followed by the diagonal captures |
| PseudoLegal.GeneratePawnCaptures | Script.js:194-202 | the loop over the two forward diagonals adds exactly the on-board squares holding an enemy piece, in offset order |
| PseudoLegal.GenerateLeaps | Script.js:204-225 | the knight/king loop adds exactly the on-board offset targets that are empty or hold an enemy piece, in table order |
| PseudoLegal.GenerateSlides | Script.js:226-242 | the outer loop over directions and the inner `while` walking each ray produce exactly the concatenated rays; the walk stops after the first occupied square |
| PseudoLegalFacts.PseudoMovesOpen | Script.js:164-245 | every generated destination is on the board and never holds a piece of the mover's colour; an empty square yields nothing |
| PseudoLegalFacts.NoNullMove | Script.js:162-245 | no piece's moves include its own square |
| PseudoLegalFacts.RayExact | Script.js:229-240 | the square j steps along a ray is produced iff all squares before it are on the board and empty and it is on the board and not held by the mover's colour |
| PseudoLegalFacts.RayIndex | Script.js:229-240 | every square of a ray lies a whole number of steps along its direction |
| PseudoLegalFacts.DirRayExact | Script.js:228-240 | the same, for the ray cast from the piece's own square (distances from 1) |
| PseudoLegalFacts.SlidesMember | Script.js:227-241 | a slider's destinations are exactly the union of its rays |
| PseudoLegalFacts.SlidesAlong | Script.js:227-241 | a square on the line along d is a destination iff d is one of the piece's directions and the ray along d reaches it |
| PseudoLegalFacts.SliderMoveOnLine | Script.js:226-241 | every rook, bishop or queen destination lies at distance >= 1 along one of its own directions |
| PseudoLegalFacts.SliderRayExact | Script.js:226-241 | a rook/bishop/queen reaches a square on its line iff every square strictly between is empty and the square itself is empty or enemy: rays stop at the first occupied square, include it only when it is an enemy, and produce nothing beyond it |
| PseudoLegalFacts.LeapsExact | Script.js:205-213 | the offset-table targets are exactly the on-board squares not held by the mover's colour whose offset is in the table |
| PseudoLegalFacts.LeaperMovesExact | Script.js:204-225 | knight and king destinations are exactly the on-board squares among their eight offsets that are empty or hold an enemy piece |
| PseudoLegalFacts.PawnMovesUnfold | Script.js:181-202 | a pawn's moves are its advance followed by the captures toward column +1 and column -1 |
| PseudoLegalFacts.PawnAdvanceExact | Script.js:182-192 | one step forward iff that square is empty; two steps iff on the start row (6 for White, 1 for Black) and both squares ahead are empty; White moves toward row 0, Black toward row 7 |
| PseudoLegalFacts.PawnCaptureExact | Script.js:194-202 | a diagonal step forward is a move iff the square is on the board and holds an enemy piece |
| PseudoLegalFacts.PawnMovesOnly | Script.js:181-202 | a pawn moves only one or two squares straight ahead or one square diagonally ahead |
| Scan.AnyFromExact | Script.js:273-298 | the row-by-row scan from (r, c) succeeds iff some square at or after (r, c) qualifies |
| Legality.FindKingSquare | Script.js:272-281 | the nested king scan with its two breaks returns `FindKing`, the first king in row-by-row order |
| Legality.AttackedByScan | Script.js:288-298 | scanning the board for an attacker decides `AttackedBy`: some enemy piece has the square among its pseudo-legal moves |
| Legality.IsAttacked | Script.js:286-299 | the attacker scan with its early return answers true iff some piece of the enemy colour has the king's square among its pseudo-legal moves |
| Legality.IsKingInCheck | Script.js:270-300 | check detection returns `InCheck`: true without a king, otherwise whether the king is attacked |
| Legality.GetValidMoves | Script.js:248-267 | the filter loop, trying each candidate on a copy of the board, returns exactly `LegalMoves` |
| LegalityFacts.FindKingFromSpec | Script.js:273-281 | the scan from (r, c) finds nothing iff no king of the colour stands at or after (r, c), and otherwise the first such king |
| LegalityFacts.FindKingFirst | Script.js:272-281 | the king scan returns k iff k holds the first king of that colour in scan order |
| LegalityFacts.FindKingNone | Script.js:272-283 | the king scan finds nothing iff the board holds no king of that colour |
| LegalityFacts.NoKingInCheck | Script.js:283 | a side without a king counts as in check |
| LegalityFacts.CheckIffAttacked | Script.js:270-300 | with a king on the board, check holds iff some enemy piece has the first king's square among its pseudo-legal moves |
| LegalityFacts.SliderGivesCheck | Script.js:288-298 | an enemy rook, bishop or queen with a clear line along one of its directions to the king gives check |
| LegalityFacts.SafeMovesMember | Script.js:254-264 | a candidate is kept iff, played on a copy without promotion (`Simulate`), it leaves the mover's king out of check |
| LegalityFacts.SafeMovesSubsequence | Script.js:254-264 | the kept candidates are the candidates at strictly increasing positions: a subsequence in the original order |
| LegalityFacts.LegalMovesExact | Script.js:248-267 | a legal move is exactly a pseudo-legal move of a piece on that square after which the mover's king is not in check; an empty square has none |
| LegalityFacts.LegalMovesSubsequence | Script.js:248-267 | the legal moves are a subsequence of the pseudo-legal moves of the same square and board |
| GameStatus.HasLegalMoveScan | Script.js:135-145 | scanning the board square by square for a piece with a legal move decides `HasLegalMove` |
| GameStatus.HasAnyLegalMove | Script.js:135-145 | the has-moves scan (break leaves only the column loop) returns true iff some piece of the side to move has a legal move |
| GameStatus.CannotMoveExact | Script.js:248-267 | a piece has no legal move iff each of its pseudo-legal moves leaves its own king in check |
| GameStatus.NoLegalMoveSelfCheck | Script.js:135-149 | without any legal move, every pseudo-legal move of every piece of that side leaves its king in check |
| GameStatus.LegalMoveWitness | Script.js:135-145 | with a legal move, some piece of that side has a pseudo-legal move that leaves its king out of check |
| GameStatus.Classify | Script.js:135-156 | checkmate iff no legal move and in check; stalemate iff no legal move and not in check; otherwise play continues, flagged as check iff the king is attacked |
| MoveExecution.AfterMove | Script.js:116-127 | after a move the origin is empty, the destination holds the moved piece (a queen of its colour for a pawn reaching row 0 as White or row 7 as Black), and every other square is unchanged |
| MoveExecution.RaySameView | Script.js:229-240 | a ray depends only on which squares are occupied and by which colour |
| MoveExecution.SlidesSameView | Script.js:226-241 | slider moves depend only on occupancy and colours |
| MoveExecution.LeapsSameView | Script.js:204-225 | knight and king moves depend only on occupancy and colours |
| MoveExecution.PawnCapturesSameView | Script.js:194-202 | pawn captures depend only on occupancy and colours |
| MoveExecution.PawnAdvanceSameView | Script.js:185-192 | pawn advances depend only on occupancy |
| MoveExecution.PseudoMovesSameView | Script.js:162-245 | the same piece on two boards that agree on occupancy and colours has the same pseudo-legal moves |
| MoveExecution.AttackedSameView | Script.js:288-298 | such boards with the same attacking pieces agree on which squares are attacked |
| MoveExecution.InCheckSameView | Script.js:270-300 | such boards with the same kings and enemy pieces agree on check |
| MoveExecution.PromotionKeepsCheck | Script.js:116-127 | the board after the real move (with promotion) and the trial copy (without) agree on whether the mover is in check |
| ChessGame.Game.constructor | Script.js:29-33 | a new game starts from a copy of the initial position with White to move |
| ChessGame.Game.ExecuteMove | Script.js:116-127 | the board becomes `AfterMove` of the old board; the turn is unchanged |
| ChessGame.Game.PlayMove | Script.js:97-105 | a move is played iff the origin holds a piece of the side to move and the destination is among its legal moves; then the board is `AfterMove`, the turn passes, and the mover is not in check; otherwise nothing changes |
| Scenarios.KnightFromStart | Script.js:204-214 | in the initial position the white knight on (7, 1) reaches exactly (5, 2) and (5, 0) |
| Scenarios.PawnDoubleStepFromStart | Script.js:181-192 | in the initial position the white pawn on (6, 4) may go to (5, 4) and (4, 4) |
| Scenarios.BlockedPawn | Script.js:185-202 | a black pawn with a piece in front and nothing to capture has no move |
| Scenarios.PawnMayCapture | Script.js:185-202 | a black pawn beside that piece advances one or two squares and captures it diagonally |
| Scenarios.RookGivesCheck | Script.js:270-300 | a black rook on (0, 4) checks the white king on (7, 4) down the open file |
| Scenarios.RookMissesKingOffFile | Script.js:226-241 | after the king steps to (7, 3), the rook on (0, 4) does not reach it |
| Scenarios.KingOffFileSafe | Script.js:270-300 | after the king steps to (7, 3), White is not in check |
| Scenarios.KingStepsOffFile | Script.js:248-267 | the king in check from the rook may step off the file to (7, 3): that move is legal |
| Scenarios.KingOnFileChecked | Script.js:270-300 | after the king steps to (6, 4) along the file, the rook still checks it |
| Scenarios.KingStaysOnFileRejected | Script.js:248-267 | stepping along the rook's file to (6, 4) is not a legal move |
| Scenarios.KinglessIsCheck | Script.js:283 | on the empty board White counts as in check |
| Scenarios.LadderKingStepChecked | Script.js:254-261 | on the two-rook board every step of the white king lands on a rook's rank |
| Scenarios.LadderKingAlone | Script.js:204-225 | on that board White's only piece is the king on (7, 4), with five steps |
| Scenarios.LadderMate | Script.js:135-150 | two rooks on rows 6 and 7 against the lone king on (7, 4): in check and no legal move, so checkmate |
| Scenarios.StalemateKingStepChecked | Script.js:254-261 | on the queen board every step of the white king on (7, 0) is attacked by the queen on (5, 1) |
| Scenarios.StalemateKingAlone | Script.js:204-225 | on that board White's only piece is the king on (7, 0), with three steps |
| Scenarios.StalemateKingSafe | Script.js:226-241 | the queen on (5, 1) does not reach (7, 0) |
| Scenarios.Stalemate | Script.js:135-153 | the lone king on (7, 0) against the queen on (5, 1): not in check and no legal move, so stalemate |

The double-step read at row + 2·direction in `PawnAdvance` stays on the board. This is proved as
the well-formedness of `PseudoLegal.PawnAdvance`, which only reads that square from the start row.
The legality filter takes the board as a value and returns a new sequence, so the caller's board
is never changed.

## Left out

- Rendering, the glyph table, CSS highlighting and element lookups (Script.js:2-5, 23-25, 40-82): presentation only.
- Click handling and the selection state (Script.js:86-96, 105-114): interaction plumbing. `Game.PlayMove` keeps the part that matters to the rules: the legal-move check, the move and the turn toggle. Clicking one of one's own pieces re-selects instead of moving; since legal moves never land on one's own pieces, this changes no move outcome.
- The status strings and `textContent` writes of `updateStatus` (Script.js:130, 150-155): only the decision is modelled, as `Classify` returning a `Status`. Calling it after each move (Script.js:34, 106) is left to the caller.
- The reset button and start-up call (Script.js:302-305): I/O wiring. `Game`'s constructor is `initGame`'s state reset.
- Deep copy through JSON serialisation (Script.js:31, 256): the board is a value, so a copy is the same value. Sharing and aliasing of row arrays are not modelled; the source's copies avoid them anyway.
- Piece tags are strings such as `"wp"` and `""` in the source and a `Color × Kind` datatype here. Malformed tags cannot be represented.
- Castling, en passant and draw rules: the source does not implement them.
- Coordinates are unbounded integers. The source's numbers never leave a small range, so no overflow is modelled.
- The board is held as a sequence value that `Game`'s methods reassign, not as nested arrays written cell by cell.
- The global `board` that `getValidMoves` reads (Script.js:249, 251, 256) is a parameter here.
- Scenarios.KnightFromStart: states the set of destinations, not their order in the result.
