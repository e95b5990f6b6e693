# Rules engine of a self-playing chess variant, in Dafny

This project models the rules engine of a browser chess game in which two agents play each other
automatically. Three parts are modelled:

- **The move generator.** `getValidMoves` lists, for one piece and the piece map, the destination
  squares in a fixed order. It looks only at occupancy: there is no check detection, castling,
  en passant or promotion. `getNotation` writes the log text of a move.
- **The game-state transition.** This covers the 32-piece starting position (`createInitialState`),
  the material evaluation (`calculateEvaluation`) and the per-side army power (`getArmyPower`). It
  also covers `makeMove`, a pure function from the old state to the new one.
- **One agent turn.** An advisor's suggestion is played unvalidated when the side to move is set to
  consult the advisor. Otherwise the local policy picks a random generated move, preferring
  captures with probability 0.6. When there is no move at all, the game is declared drawn.

The modules follow the program:

| module | models |
|---|---|
| `Types` | the records: piece, move, game state, strategy |
| `Roster` | the piece map: a `Record<string, ChessPiece>` kept as a sequence in key-insertion order |
| `MoveGen` | the generator |
| `MoveGenProps` | properties of the generator |
| `Notation` | the notation text |
| `Evaluation` | material counting |
| `BoardState` | how the board is read and copied |
| `Setup` | the starting position |
| `Transition` | `makeMove` and the draw |
| `Selection` | the agent turn |
| `Game` | turns chained from the start, and the invariant every reached position keeps |

The model follows what the code does. Five behaviours of the code are easy to misread:

- `makeMove` checks only that the source cell names a piece. It does not check whose turn it is,
  who owns the target, or whether the move was generated. A piece can capture its own side, or
  "capture" itself when `from == to`.
- The pawn double step is offered only when both squares ahead are empty, because it is nested
  inside the single-step test.
- The knight's log letter is `K`, the same as the king's, so a quiet knight move to rank 3,
  file 2 is logged `Kc4`.
- The pawn's forward step is not bounds-checked. A pawn on its last rank is therefore offered a
  square one rank past the edge. When the local policy then reads that row of the board, the turn
  fails with a runtime error. The model records this as a crash (`Crash(MissingRow(..))`), and
  the game stalls.
- The advisor's suggestion is played without any check. A suggestion whose destination is off
  the board on an existing rank (file 8, say) goes through. It leaves the piece on a square the
  board does not have.

Runtime errors of the source are modelled as a `Result` whose `Crash` side carries one of two
faults:

- `MissingRow(rank)`: a board row outside ranks 0..7 was read.
- `MissingPiece(id)`: the board names an id that the piece map does not hold.

Randomness and the clock are parameters:

- `preferCapture` stands for the first draw being above 0.4.
- `pick` is the index draw, used modulo the list length. It is the second draw when there are
  captures and the only draw otherwise, since the capture test short-circuits.
- `timestamp` is the clock reading.

## Model

| member | source | states |
|---|---|---|
| `Roster.Lookup` | App.tsx:64 | `pieces[id]` yields a piece of the map stored under that id, and yields nothing exactly when no piece has that id |
| `Roster.Occupant` | services/chessLogic.ts:9-11 | `isOccupied` yields a piece of the map standing on the square, and nothing exactly when no piece stands there |
| `Roster.OccupantFirst` | services/chessLogic.ts:10 | the piece `isOccupied` finds is the first in map order standing on the square: `find` stops at the first match |
| `Roster.Put` | App.tsx:71-75 | after `pieces[p.id] = p` the map holds `p` and exactly the old entries under other keys; a present key keeps its place and a new key is appended last |
| `Roster.LookupRemove` | App.tsx:69 | after `delete pieces[id]` that key reads nothing and every other key reads as before |
| `Roster.LookupPut` | App.tsx:71-75 | after the assignment the key reads the new piece and every other key reads as before |
| `Roster.OfSide` | App.tsx:126 | the side filter keeps exactly the pieces of that side |
| `MoveGen.LeapsMembers` | services/chessLogic.ts:13-24 | a knight or king square is listed exactly when some offset leads to it, it is on the board, and no piece of the mover's side holds it |
| `MoveGen.Slides` | services/chessLogic.ts:26-42 | a sliding square is listed exactly when it lies on the ray of one of the directions |
| `MoveGen.RayShape` | services/chessLogic.ts:28-40 | a ray is a contiguous run along its direction, all on the board; every square but the last is empty; an occupied last square holds an enemy; when the run ends empty, the next square is off the board or friendly |
| `MoveGen.AlongDistance` | services/chessLogic.ts:28-39 | walking `k` steps moves by `k` times the direction |
| `MoveGenProps.RayReachesExactly` | services/chessLogic.ts:26-42 | a ray yields exactly the squares some steps away whose path is clear and which are on the board and not friendly; nothing past the first occupied square is included |
| `MoveGenProps.RayFromOnBoard` | services/chessLogic.ts:28-37 | every ray square is on the board, is not the start square, and is not held by the mover's side |
| `MoveGenProps.PawnMovesExactly` | services/chessLogic.ts:45-59 | a pawn's list is exactly: the empty square ahead; the double step; the diagonal squares holding an enemy. It has at most four entries |
| `MoveGenProps.PawnDoubleStep` | services/chessLogic.ts:46-52 | the double step appears exactly when the pawn has not moved and both squares ahead are empty; forward is +1 for white and -1 for black |
| `MoveGenProps.PawnTargets` | services/chessLogic.ts:48-58 | forward destinations are empty and diagonal ones hold an enemy, so diagonal ones are on the board whenever every piece is |
| `MoveGenProps.PawnStepsOffBoard` | services/chessLogic.ts:48-49 | a pawn on its last rank is offered the square one rank past the edge, a row the board does not have |
| `MoveGenProps.ValidMovesSound` | services/chessLogic.ts:4-82 | no destination is the piece's own square or holds a piece of its side, and every knight, bishop, rook, queen and king destination is on the board |
| `MoveGenProps.ValidMovesOnFiles` | services/chessLogic.ts:44-79 | when the piece and every piece of the map stand on the board, every destination lies on files 0..7, and it is on the board whenever its rank is one of 0..7 |
| `MoveGenProps.LeapsExactly` | services/chessLogic.ts:60-78 | a knight's or king's destinations are exactly its offsets that land on the board and off friendly pieces |
| `MoveGenProps.SlidesExactly` | services/chessLogic.ts:65-73 | a bishop's, rook's or queen's destinations are exactly what the sliding rule reaches along its directions |
| `MoveGenProps.MoveCounts` | services/chessLogic.ts:44-79 | a knight or king has at most 8 moves and a pawn at most 4; on the board a bishop or rook has at most 28 and a queen at most 56 |
| `MoveGenProps.LoneKnightExample` | services/chessLogic.ts:60-63 | a lone knight on rank 0, file 1 gets exactly [(1,3), (2,0), (2,2)], in that order |
| `Notation.NatToDecimal` | services/chessLogic.ts:87 | the rank is printed as decimal digits with no leading zero |
| `Notation.DecimalRoundTrip` | services/chessLogic.ts:87 | reading the printed digits back gives the number printed |
| `Notation.OnBoardText` | services/chessLogic.ts:85-87 | on the board, the file prints as one letter a..h and the rank as one digit 1..8 |
| `Notation.PieceLetterShape` | services/chessLogic.ts:86 | a pawn has no letter; every other type has one capital letter |
| `Notation.FormatThenParse` | services/chessLogic.ts:84-88 | the log text of an on-board move reads back into its piece letter, capture flag and destination |
| `Notation.ParseThenFormat` | services/chessLogic.ts:84-88 | every text that reads back is the text built from the parts it reads back into |
| `Notation.CaptureMarked` | services/chessLogic.ts:87 | the text contains `x` exactly when the move is a capture |
| `Notation.KnightWritesLikeKing` | services/chessLogic.ts:86 | the knight and the king both write `K`, so their moves to one square log identically |
| `Notation.KnightQuietMoveExample` | services/chessLogic.ts:84-88 | a quiet knight move to rank 3, file 2 is logged `Kc4` |
| `Evaluation.EvaluationIsPowerDifference` | App.tsx:177-182 | the evaluation is white's army power minus black's |
| `Evaluation.EvaluateRemove` | App.tsx:69 | deleting a key takes exactly that piece's signed value out of the evaluation |
| `Evaluation.EvaluatePut` | App.tsx:71-75 | storing a piece replaces the old value under its key by the new piece's value |
| `BoardState.CellAtOccupant` | App.tsx:61-62 | on a consistent position, reading a cell of an existing row never fails, and finds an id exactly when a piece stands on the square, namely that piece's id |
| `BoardState.CopyRowsConsistent` | App.tsx:77 | on a consistent position the row copy is the board itself, since every occupied cell lies on files 0..7 |
| `BoardState.ConsistentCells` | App.tsx:15-16 | under the board/map invariant, a cell names an id exactly when the piece under that id stands there |
| `BoardState.ConsistentSquares` | App.tsx:15-16 | under the invariant, no two pieces share a square and only on-board cells are occupied |
| `BoardState.OccupantIsCell` | services/chessLogic.ts:9-11 | under the invariant, the piece `isOccupied` finds on a square is the one the board names there |
| `Setup.PieceIdsDiffer` | App.tsx:14 | ids built from different on-board squares differ |
| `Setup.PlacementsDistinct` | App.tsx:19-26 | the 32 placements stand on 32 different squares under 32 different ids |
| `Setup.AddAllPieces` | App.tsx:15 | with fresh ids, `addPiece` only appends to the map |
| `Setup.AddAllBoard` | App.tsx:16 | with distinct squares, `addPiece` writes each id on its own square and leaves every other cell alone |
| `Setup.InitialPieces` | App.tsx:25-26 | the initial map holds the placements in the order they were made |
| `Setup.SetupSideMaterial` | App.tsx:19-23 | each side fields 16 pieces worth 139 |
| `Setup.InitialLayout` | App.tsx:9-36 | the start has 32 unmoved pieces, 16 a side, all on the board. A piece is white exactly when it stands below rank 2, and is a pawn exactly when it stands on rank 1 or 6. Every other piece is the back-rank type of its file (R N B Q K B N R). Ids are `side-type-r-f`. White moves first, with no history and no result |
| `Setup.InitialMaterial` | App.tsx:35 | both armies start at 139, so the literal evaluation 0 is the material balance |
| `Setup.InitialConsistent` | App.tsx:11-26 | the initial board holds ids exactly on ranks 0, 1, 6 and 7, and agrees with the map |
| `Transition.MakeMoveFaults` | App.tsx:61-95 | the move fails exactly when the source row is missing, or, once the source names an id, the target row is missing or an id the board names is absent from the map; an empty source leaves the state as it was |
| `Transition.MakeMoveEffects` | App.tsx:59-111 | the mover is stored at `to` and marked moved. The captured key is gone and other keys are untouched. `to` names the mover, `from` is cleared and other cells are kept. The turn flips and exactly one log entry is appended. The evaluation is recomputed, and the game ends, won by the mover, exactly when a king was taken |
| `Transition.PiecesAfterLookup` | App.tsx:68-75 | after the move the mover's key reads the moved piece, the captured key reads nothing, and other keys read as before |
| `Transition.PiecesAfterEvaluate` | App.tsx:91 | the new evaluation loses the captured piece's value and swaps the mover's old value for its new one |
| `Transition.BoardAfterCells` | App.tsx:77-79 | after the move `to` names the mover, `from` is cleared unless it is `to`, every other array cell is kept, and a cell off the array indices, which `[...row]` does not copy, is dropped unless it is `to` |
| `Transition.MakeMoveWellFormed` | App.tsx:59-111 | on a consistent position a move between on-board squares never fails. From an empty square it returns the position unchanged. Otherwise it yields a consistent position whose evaluation is the material balance, whatever the move |
| `Transition.MakeMoveMaterial` | App.tsx:91 | capturing another piece takes exactly its signed value off the evaluation; any other move leaves it unchanged |
| `Transition.SelfCapture` | App.tsx:65-79 | a piece sent to its own square is logged as capturing itself and ends up last in the map; a king doing so wins for its own side |
| `Selection.PieceCandidates` | App.tsx:134 | one piece's entries pair each generated square, in order, with the board read there, failing exactly when one of those rows is missing |
| `Selection.ArmyCandidates` | App.tsx:125-134 | listing the side's entries fails exactly when some generated square of some piece lies on a missing row |
| `Selection.ArmyCandidatesExactly` | App.tsx:125-134 | an entry is listed exactly when it pairs a piece of the side with one of its generated squares and the board's reading there |
| `Selection.LocalCandidatesExactly` | App.tsx:124-134 | the local entries are every generated move of every piece of the side to move |
| `Selection.Captures` | App.tsx:135 | the capture list holds exactly the entries whose target cell names a piece |
| `Selection.Pick` | App.tsx:138-141 | an index drawn modulo the length picks an entry of the list |
| `Selection.Choose` | App.tsx:132-144 | there is no choice exactly when there are no entries. A choice is always some entry, and a capture when one exists and the first draw prefers it |
| `Selection.ChooseAnyEntry` | App.tsx:140-142 | without capture preference every entry can be chosen |
| `Selection.ChooseAnyCapture` | App.tsx:137-139 | with capture preference every capture can be chosen |
| `Selection.ChooseWithoutCaptures` | App.tsx:137 | without captures the first draw makes no difference |
| `Selection.AgentTurn` | App.tsx:114 | a turn on a finished game changes nothing |
| `Game.InitialSound` | App.tsx:9-37 | the starting position satisfies the game invariant: board and map agree, the evaluation is the balance, unmoved pawns are home |
| `Game.MakeMoveSound` | App.tsx:59-111 | a move between on-board squares keeps the invariant |
| `Game.LocalChoice` | App.tsx:124-145 | the local choice is a generated move of a piece of the side to move, between on-board squares, from the cell naming that piece |
| `Game.OffRankMoves` | services/chessLogic.ts:44-59 | on a sound position a generated square lies off the ranks exactly when it comes from a pawn on its last rank |
| `Game.AgentTurnCrash` | App.tsx:117-148 | on a sound position, for any suggestion, a running turn fails exactly in two cases. A followed suggestion fails when its source row is missing, or its source names a piece and its destination row is missing. Otherwise the local policy fails when a pawn of the side to move stands on its last rank |
| `Game.AgentTurnSound` | App.tsx:113-159 | a turn that goes through keeps the invariant, when any suggestion names a destination on the board |
| `Game.OffBoardDestination` | App.tsx:59-79 | sending a piece to a square off the board goes through exactly when that square's row exists, and the result breaks the board/map invariant |
| `Game.OffBoardSuggestion` | App.tsx:120-148 | an unvalidated suggestion that sends a piece off the board along an existing rank goes through and leaves an unsound position, so the destination assumption of `Game.AgentTurnSound` cannot be dropped |
| `Game.AgentTurnDraw` | App.tsx:147-157 | a turn ends in a draw exactly when no suggestion is followed and the local policy finds no move; then only the game-over flag and the winner change |
| `Game.MoveNeverDraws` | App.tsx:93-108 | a move never records a draw on a running game |
| `Game.PlaySound` | App.tsx:161-165 | every position a run of turns reaches from a sound one is sound, when every suggested destination is on the board |
| `Game.GameSound` | App.tsx:40 | every position of a game from the start is sound, when every suggested destination is on the board |
| `Game.GameOverStays` | App.tsx:114 | once the game is over, further turns change nothing |

## Left out

- The advisor service (a network call and JSON parsing) is not part of this model. Its answer is
  the parameter `suggestion`, fed to `makeMove` unvalidated, as the source does.
- `Math.random` is replaced by two oracles: `preferCapture` for "the draw exceeded 0.4" and
  `pick` for the index, taken modulo the list length. Only membership is proved, not the
  distribution.
- `Date.now()` is the parameter `timestamp`.
- Scheduling is not modelled: the timer effect, pause, the `isProcessingMove` guard and the
  commentary cadence (App.tsx:113-118, 147-169). A turn is modelled as if the state it chooses
  from is the state `makeMove` is applied to; the two are not interleaved with other updates.
- The 3D scene, the UI markup, the colour and offset constants, and the unused ×10 value table
  are presentation.
- The `Minimax` and `Aggressive` strategies exist as values but behave like `Random`, as in the
  source.
- Coordinates are integers. A suggestion with fractional or non-numeric coordinates is not
  modelled.
- The piece map keeps keys in insertion order. JavaScript lists integer-like keys first, but no
  id the game creates is integer-like. Prototype keys (`constructor` and the like) are not
  modelled.
- Numbers are unbounded integers. Every value the engine computes is a small integer, which a
  JavaScript double holds exactly.
- `Game.AgentTurnSound`: holds only when a suggestion's destination is on the board. The source
  does not validate suggestions. `Game.OffBoardSuggestion` shows that an off-board destination on
  an existing rank goes through and breaks the invariant. An off-board destination on a missing
  row crashes instead when the suggested source names a piece (`Game.AgentTurnCrash`). From an
  empty source on an existing row the turn changes nothing.
- `Game.PlaySound`: assumes every suggested destination is on the board, for the same reason.
  The turn itself models any suggestion.
- `Game.GameSound`: assumes every suggested destination is on the board, for the same reason.
- `Selection.AgentTurn`: its own contract covers only the finished-game case. What a running
  turn does is stated by `Game.AgentTurnCrash`, `Game.AgentTurnSound`, `Game.AgentTurnDraw` and
  `Game.LocalChoice`.
