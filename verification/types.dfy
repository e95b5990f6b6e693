/** The engine's data model: sides, pieces, squares, history entries and the game state.

    A square is kept as the engine keeps it, a [rank, file] pair of integers: nothing in the
    engine forces a stored square onto the 8x8 board, and the model does not either. */
module Types {

  datatype Option<+T> = None | Some(value: T)

  /** A run-time failure of the engine: the JavaScript code reads a property of `undefined`. */
  datatype Fault =
    | MissingRow(rank: int)       // board[rank] is undefined because rank is not 0..7
    | MissingPiece(id: PieceId)   // a board cell names an id that the piece map does not hold

  datatype Result<+T> = Ok(value: T) | Crash(fault: Fault)

  datatype PieceType = Pawn | Knight | Bishop | Rook | Queen | King

  datatype Side = White | Black

  datatype Square = Square(rank: int, file: int)

  type PieceId = string

  datatype Piece = Piece(id: PieceId, kind: PieceType, side: Side, position: Square, hasMoved: bool)

  /** How a side picks its moves. Only `Gemini` behaves differently: the others all use the
      local policy. */
  datatype AIStrategy = Random | Minimax | Aggressive | Gemini

  /** One history entry; `timestamp` is whatever clock value the caller supplies. */
  datatype Move = Move(
    from: Square,
    to: Square,
    pieceId: PieceId,
    capturedPieceId: Option<PieceId>,
    notation: string,
    timestamp: int)

  /** The `winner` field: a side, the draw marker, or null. */
  datatype Winner = NoWinner | Victor(side: Side) | Drawn

  /** The board: cell (rank, file) holds an id when the key is present and is empty otherwise.
      Only ranks 0..7 exist as rows; a row accepts a write at any file. */
  type Board = map<Square, PieceId>

  datatype GameState = GameState(
    board: Board,
    pieces: seq<Piece>,
    turn: Side,
    history: seq<Move>,
    isGameOver: bool,
    winner: Winner,
    evaluation: int)

  predicate OnBoard(s: Square) {
    0 <= s.rank <= 7 && 0 <= s.file <= 7
  }

  /** `board[rank]` is a row array exactly for the eight ranks the board was created with. */
  predicate RowExists(rank: int) {
    0 <= rank <= 7
  }

  function Opponent(side: Side): (o: Side)
    ensures o != side
  {
    if side == White then Black else White
  }

  function SideName(side: Side): string {
    if side == White then "white" else "black"
  }

  function TypeName(kind: PieceType): string {
    match kind
    case Pawn => "pawn"
    case Knight => "knight"
    case Bishop => "bishop"
    case Rook => "rook"
    case Queen => "queen"
    case King => "king"
  }
}
