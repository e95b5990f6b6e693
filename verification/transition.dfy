/** Applying a move (`makeMove`) and the forced draw.

    `makeMove` trusts its caller: it checks only that the source cell names a piece. It does not
    check that the piece belongs to the side to move, that the destination is one of its moves, or
    even that the destination is on the board; whatever stands on the destination is removed from
    the piece map. Reading a row that does not exist, or a piece the map does not hold, is a
    TypeError in the source and a `Crash` here. */
module Transition {
  import opened Types
  import opened Roster
  import opened Notation
  import opened Evaluation
  import opened BoardState

  /** A cell names a piece (a non-empty id). */
  predicate Occupied(b: Board, s: Square) {
    s in b && b[s] != ""
  }

  /** `makeMove(from, to)` applied to the state `prev`, at clock reading `timestamp`. */
  function MakeMove(prev: GameState, from: Square, to: Square, timestamp: int): Result<GameState> {
    match CellAt(prev.board, from)
    case Crash(f) => Crash(f)
    case Ok(None) => Ok(prev)
    case Ok(Some(pieceId)) =>
      match CellAt(prev.board, to)
      case Crash(f) => Crash(f)
      case Ok(target) =>
        match Lookup(prev.pieces, pieceId)
        case None => Crash(MissingPiece(pieceId))
        case Some(piece) =>
          match KingTaken(prev.pieces, target)
          case Crash(f) => Crash(f)
          case Ok(over) => Ok(Moved(prev, from, to, pieceId, piece, target, over, timestamp))
  }

  /** Whether the captured id names a king; reading the type of a captured id the map does not
      hold is a crash. */
  function KingTaken(ps: seq<Piece>, target: Option<PieceId>): Result<bool> {
    match target
    case None => Ok(false)
    case Some(t) =>
      match Lookup(ps, t)
      case None => Crash(MissingPiece(t))
      case Some(victim) => Ok(victim.kind == King)
  }

  /** The state `makeMove` returns once every read has succeeded. */
  function Moved(prev: GameState, from: Square, to: Square, pieceId: PieceId, piece: Piece,
                 target: Option<PieceId>, over: bool, timestamp: int): GameState {
    var newPieces := PiecesAfter(prev.pieces, target, piece.(position := to, hasMoved := true));
    prev.(
      pieces := newPieces,
      board := BoardAfter(prev.board, from, to, pieceId),
      turn := Opponent(prev.turn),
      history := prev.history + [Move(from, to, pieceId, target, NotationOf(piece, to, target.Some?), timestamp)],
      evaluation := Evaluate(newPieces),
      isGameOver := over,
      winner := if over then Victor(piece.side) else NoWinner)
  }

  /** The move crashes exactly when the source row is missing, or the source names a piece and
      then the destination row is missing, the map has no piece under the source's id, or the
      destination names an id the map does not hold. An empty source cell leaves the state as it
      was. */
  lemma MakeMoveFaults(prev: GameState, from: Square, to: Square, timestamp: int)
    ensures MakeMove(prev, from, to, timestamp).Crash? <==>
      || !RowExists(from.rank)
      || (Occupied(prev.board, from) &&
          (|| !RowExists(to.rank)
           || prev.board[from] !in Ids(prev.pieces)
           || (Occupied(prev.board, to) && prev.board[to] !in Ids(prev.pieces))))
    ensures RowExists(from.rank) && !Occupied(prev.board, from) ==> MakeMove(prev, from, to, timestamp) == Ok(prev)
  {
  }

  /** The piece map after a move: the captured key deleted, then the mover stored under its key. */
  function PiecesAfter(ps: seq<Piece>, target: Option<PieceId>, moved: Piece): seq<Piece> {
    Put(if target.Some? then Remove(ps, target.value) else ps, moved)
  }

  /** The board after a move: rows copied, the source cell cleared, the mover's id written at `to`. */
  function BoardAfter(b: Board, from: Square, to: Square, id: PieceId): Board {
    (CopyRows(b) - {from})[to := id]
  }

  /** After the move the mover's key reads the moved piece, the captured key is gone, and every
      other key reads as before. */
  lemma PiecesAfterLookup(ps: seq<Piece>, target: Option<PieceId>, moved: Piece, x: PieceId)
    ensures Lookup(PiecesAfter(ps, target, moved), x) ==
      if x == moved.id then Some(moved) else if target == Some(x) then None else Lookup(ps, x)
  {
    var mid := if target.Some? then Remove(ps, target.value) else ps;
    LookupPut(mid, moved, x);
    if target.Some? {
      LookupRemove(ps, target.value, x);
    }
  }

  lemma PiecesAfterDistinct(ps: seq<Piece>, target: Option<PieceId>, moved: Piece)
    requires DistinctIds(ps)
    ensures DistinctIds(PiecesAfter(ps, target, moved))
  {
    var mid := if target.Some? then Remove(ps, target.value) else ps;
    if target.Some? {
      RemoveDistinct(ps, target.value);
    }
    PutDistinct(mid, moved);
  }

  /** The evaluation after the move loses the captured piece's contribution (unless the mover took
      its own key) and swaps the mover's old contribution for its new one. */
  lemma PiecesAfterEvaluate(ps: seq<Piece>, target: Option<PieceId>, moved: Piece)
    requires DistinctIds(ps)
    ensures Evaluate(PiecesAfter(ps, target, moved)) ==
      Evaluate(ps) - (if target.Some? && target.value != moved.id then Stake(ps, target.value) else 0)
        - Stake(ps, moved.id) + Signed(moved)
  {
    if target.Some? {
      var t := target.value;
      var mid := Remove(ps, t);
      EvaluateRemove(ps, t);
      RemoveDistinct(ps, t);
      EvaluatePut(mid, moved);
      LookupRemove(ps, t, moved.id);
    } else {
      EvaluatePut(ps, moved);
    }
  }

  /** The captured id `makeMove` reads on the destination, if any. */
  function TargetAt(b: Board, to: Square): Option<PieceId> {
    if Occupied(b, to) then Some(b[to]) else None
  }

  /** What a move that goes through does: the mover's key now holds the piece at `to`, marked as
      moved; the captured key (if it is not the mover's own) is gone; every other key is untouched;
      the board names the mover at `to`, has cleared `from`, and keeps every other array cell; the
      turn passes; exactly one log entry is added; the evaluation is recomputed from the new map;
      and the game ends, won by the mover's side, exactly when a king was taken. */
  lemma MakeMoveEffects(prev: GameState, from: Square, to: Square, timestamp: int)
    requires MakeMove(prev, from, to, timestamp).Ok? && Occupied(prev.board, from)
    ensures Lookup(prev.pieces, prev.board[from]).Some?
    ensures var next := MakeMove(prev, from, to, timestamp).value;
      var id := prev.board[from];
      var piece := Lookup(prev.pieces, id).value;
      var target := TargetAt(prev.board, to);
      && Lookup(next.pieces, id) == Some(piece.(position := to, hasMoved := true))
      && (target.Some? && target.value != id ==> target.value !in Ids(next.pieces))
      && (forall x | x != id && target != Some(x) :: Lookup(next.pieces, x) == Lookup(prev.pieces, x))
      && to in next.board && next.board[to] == id
      && (from != to ==> from !in next.board)
      && (forall s | s != from && s != to && IsArrayIndex(s.file) ::
            (s in next.board <==> s in prev.board) && (s in prev.board ==> next.board[s] == prev.board[s]))
      && next.turn == Opponent(prev.turn)
      && next.history == prev.history + [Move(from, to, id, target, NotationOf(piece, to, target.Some?), timestamp)]
      && next.evaluation == Evaluate(next.pieces)
      && (next.isGameOver <==> target.Some? && Lookup(prev.pieces, target.value).value.kind == King)
      && next.winner == (if next.isGameOver then Victor(piece.side) else NoWinner)
  {
    MakeMoveFaults(prev, from, to, timestamp);
    MakeMoveResult(prev, from, to, timestamp);
    var id := prev.board[from];
    MovedEffects(prev, from, to, id, Lookup(prev.pieces, id).value, TargetAt(prev.board, to),
                 KingTaken(prev.pieces, TargetAt(prev.board, to)).value, timestamp);
  }

  lemma MovedEffects(prev: GameState, from: Square, to: Square, id: PieceId, piece: Piece,
                     target: Option<PieceId>, over: bool, timestamp: int)
    requires piece.id == id
    ensures var next := Moved(prev, from, to, id, piece, target, over, timestamp);
      && Lookup(next.pieces, id) == Some(piece.(position := to, hasMoved := true))
      && (target.Some? && target.value != id ==> target.value !in Ids(next.pieces))
      && (forall x | x != id && target != Some(x) :: Lookup(next.pieces, x) == Lookup(prev.pieces, x))
      && to in next.board && next.board[to] == id
      && (from != to ==> from !in next.board)
      && (forall s | s != from && s != to && IsArrayIndex(s.file) ::
            (s in next.board <==> s in prev.board) && (s in prev.board ==> next.board[s] == prev.board[s]))
      && next.turn == Opponent(prev.turn)
      && next.history == prev.history + [Move(from, to, id, target, NotationOf(piece, to, target.Some?), timestamp)]
      && next.evaluation == Evaluate(next.pieces)
      && next.isGameOver == over
      && next.winner == (if over then Victor(piece.side) else NoWinner)
  {
    var moved := piece.(position := to, hasMoved := true);
    var next := Moved(prev, from, to, id, piece, target, over, timestamp);
    forall x ensures Lookup(next.pieces, x) ==
      if x == id then Some(moved) else if target == Some(x) then None else Lookup(prev.pieces, x)
    {
      PiecesAfterLookup(prev.pieces, target, moved, x);
    }
    BoardAfterCells(prev.board, from, to, id);
  }

  /** A state the game can be in: board and piece map agree and the stored evaluation is the
      material balance of the map. */
  predicate WellFormed(s: GameState) {
    Consistent(s.board, s.pieces) && s.evaluation == Evaluate(s.pieces)
  }

  /** On a consistent position, a move between two squares of the board never crashes, and the
      position it leads to is consistent again, whatever the move: a move of either side, to any
      square, onto a piece of either side, or even onto the mover's own square. */
  lemma MakeMoveWellFormed(prev: GameState, from: Square, to: Square, timestamp: int)
    requires Consistent(prev.board, prev.pieces) && OnBoard(from) && OnBoard(to)
    ensures MakeMove(prev, from, to, timestamp).Ok?
    ensures Occupied(prev.board, from) ==> WellFormed(MakeMove(prev, from, to, timestamp).value)
    ensures !Occupied(prev.board, from) ==> MakeMove(prev, from, to, timestamp).value == prev
  {
    var b := prev.board;
    var ps := prev.pieces;
    if Occupied(b, from) {
      var id := b[from];
      ConsistentCells(b, ps, from, id);
      var piece := Lookup(ps, id).value;
      var target := TargetAt(b, to);
      if target.Some? {
        ConsistentCells(b, ps, to, target.value);
      }
      var moved := piece.(position := to, hasMoved := true);
      MoveConsistent(b, ps, from, to, moved);
      MakeMoveResult(prev, from, to, timestamp);
    }
  }

  /** When every read succeeds, the move's result is the state built from its parts. */
  lemma MakeMoveResult(prev: GameState, from: Square, to: Square, timestamp: int)
    requires RowExists(from.rank) && RowExists(to.rank) && Occupied(prev.board, from)
    requires Lookup(prev.pieces, prev.board[from]).Some?
    requires Occupied(prev.board, to) ==> prev.board[to] in Ids(prev.pieces)
    ensures var target := TargetAt(prev.board, to);
      && KingTaken(prev.pieces, target).Ok?
      && MakeMove(prev, from, to, timestamp) ==
           Ok(Moved(prev, from, to, prev.board[from], Lookup(prev.pieces, prev.board[from]).value,
                    target, KingTaken(prev.pieces, target).value, timestamp))
  {
    assert CellAt(prev.board, from) == Ok(Some(prev.board[from]));
    assert CellAt(prev.board, to) == Ok(TargetAt(prev.board, to));
  }

  /** Moving the piece that stands on `from` to the on-board square `to`, capturing whatever the
      board names there, keeps board and piece map in agreement. */
  lemma MoveConsistent(b: Board, ps: seq<Piece>, from: Square, to: Square, moved: Piece)
    requires Consistent(b, ps) && OnBoard(to) && Occupied(b, from)
    requires Lookup(ps, b[from]).Some? && moved == Lookup(ps, b[from]).value.(position := to, hasMoved := true)
    ensures Consistent(BoardAfter(b, from, to, b[from]), PiecesAfter(ps, TargetAt(b, to), moved))
  {
    var np := PiecesAfter(ps, TargetAt(b, to), moved);
    var nb := BoardAfter(b, from, to, b[from]);
    CopyRowsConsistent(b, ps);
    PiecesAfterDistinct(ps, TargetAt(b, to), moved);
    MovedPiecesPlaced(b, ps, from, to, moved);
    MovedCellsNamed(b, ps, from, to, moved);
  }

  lemma MovedPiecesPlaced(b: Board, ps: seq<Piece>, from: Square, to: Square, moved: Piece)
    requires Consistent(b, ps) && OnBoard(to) && Occupied(b, from)
    requires Lookup(ps, b[from]).Some? && moved == Lookup(ps, b[from]).value.(position := to, hasMoved := true)
    ensures var np := PiecesAfter(ps, TargetAt(b, to), moved);
      var nb := BoardAfter(b, from, to, b[from]);
      forall p | p in np :: p.id != "" && OnBoard(p.position) && p.position in nb && nb[p.position] == p.id
  {
    var np := PiecesAfter(ps, TargetAt(b, to), moved);
    forall p | p in np
      ensures p.id != "" && OnBoard(p.position)
      ensures p.position in BoardAfter(b, from, to, b[from]) && BoardAfter(b, from, to, b[from])[p.position] == p.id
    {
      MovedPiecePlaced(b, ps, from, to, moved, p);
    }
  }

  lemma MovedPiecePlaced(b: Board, ps: seq<Piece>, from: Square, to: Square, moved: Piece, p: Piece)
    requires Consistent(b, ps) && OnBoard(to) && Occupied(b, from)
    requires Lookup(ps, b[from]).Some? && moved == Lookup(ps, b[from]).value.(position := to, hasMoved := true)
    requires p in PiecesAfter(ps, TargetAt(b, to), moved)
    ensures p.id != "" && OnBoard(p.position)
    ensures var nb := BoardAfter(b, from, to, b[from]); p.position in nb && nb[p.position] == p.id
  {
    var id := b[from];
    var target := TargetAt(b, to);
    BoardAfterCells(b, from, to, id);
    PiecesAfterDistinct(ps, target, moved);
    LookupMember(PiecesAfter(ps, target, moved), p);
    PiecesAfterLookup(ps, target, moved, p.id);
    if p.id != id {
      assert target != Some(p.id) && Lookup(ps, p.id) == Some(p);
      assert p in ps;
      assert p.position in b && b[p.position] == p.id;
      assert p.position != from && p.position != to;
    }
  }

  /** The cells of the board after a move: `to` names the mover, `from` is cleared unless it is
      `to`, and every other cell of an array index is kept. */
  lemma BoardAfterCells(b: Board, from: Square, to: Square, id: PieceId)
    ensures var nb := BoardAfter(b, from, to, id);
      && to in nb && nb[to] == id
      && (from != to ==> from !in nb)
      && (forall s | s in nb && s != to :: s in b && s != from && nb[s] == b[s])
      && (forall s | s in b && s != from && s != to && IsArrayIndex(s.file) :: s in nb && nb[s] == b[s])
      && (forall s | s in b && s != to && !IsArrayIndex(s.file) :: s !in nb)
  {
  }

  lemma MovedCellsNamed(b: Board, ps: seq<Piece>, from: Square, to: Square, moved: Piece)
    requires Consistent(b, ps) && OnBoard(to) && Occupied(b, from)
    requires Lookup(ps, b[from]).Some? && moved == Lookup(ps, b[from]).value.(position := to, hasMoved := true)
    ensures var np := PiecesAfter(ps, TargetAt(b, to), moved);
      var nb := BoardAfter(b, from, to, b[from]);
      forall x | x in nb :: Lookup(np, nb[x]).Some? && Lookup(np, nb[x]).value.position == x
  {
    var id := b[from];
    var target := TargetAt(b, to);
    var np := PiecesAfter(ps, target, moved);
    var nb := BoardAfter(b, from, to, id);
    CopyRowsConsistent(b, ps);
    forall x | x in nb ensures Lookup(np, nb[x]).Some? && Lookup(np, nb[x]).value.position == x {
      PiecesAfterLookup(ps, target, moved, nb[x]);
      if x != to {
        ConsistentCells(b, ps, x, nb[x]);
        ConsistentCells(b, ps, from, id);
        if target.Some? {
          ConsistentCells(b, ps, to, target.value);
        }
      }
    }
  }

  /** The evaluation after a move on a consistent position: a capture of another piece takes off
      exactly that piece's contribution (a white piece's value, or adds back a black piece's); any
      other move leaves it unchanged. */
  lemma MakeMoveMaterial(prev: GameState, from: Square, to: Square, timestamp: int)
    requires Consistent(prev.board, prev.pieces) && OnBoard(from) && OnBoard(to)
    requires Occupied(prev.board, from)
    ensures MakeMove(prev, from, to, timestamp).Ok?
    ensures MakeMove(prev, from, to, timestamp).value.evaluation ==
      if Occupied(prev.board, to) && from != to
      then Evaluate(prev.pieces) - Stake(prev.pieces, prev.board[to])
      else Evaluate(prev.pieces)
  {
    MoverFacts(prev.board, prev.pieces, from, to);
    MovedMaterial(prev, from, to, timestamp);
  }

  /** What the invariant says about the two squares of a move whose source is occupied. */
  lemma MoverFacts(b: Board, ps: seq<Piece>, from: Square, to: Square)
    requires Consistent(b, ps) && Occupied(b, from)
    ensures DistinctIds(ps) && Lookup(ps, b[from]).Some? && Lookup(ps, b[from]).value.position == from
    ensures Occupied(b, to) ==> b[to] in Ids(ps) && (b[to] == b[from] <==> from == to)
  {
    ConsistentCells(b, ps, from, b[from]);
    if Occupied(b, to) {
      ConsistentCells(b, ps, to, b[to]);
    }
  }

  lemma MovedMaterial(prev: GameState, from: Square, to: Square, timestamp: int)
    requires RowExists(from.rank) && RowExists(to.rank) && Occupied(prev.board, from)
    requires DistinctIds(prev.pieces) && Lookup(prev.pieces, prev.board[from]).Some?
    requires Occupied(prev.board, to) ==> prev.board[to] in Ids(prev.pieces) && (prev.board[to] == prev.board[from] <==> from == to)
    ensures MakeMove(prev, from, to, timestamp).Ok?
    ensures MakeMove(prev, from, to, timestamp).value.evaluation ==
      if Occupied(prev.board, to) && from != to
      then Evaluate(prev.pieces) - Stake(prev.pieces, prev.board[to])
      else Evaluate(prev.pieces)
  {
    MakeMoveResult(prev, from, to, timestamp);
    MoveMaterial(prev.pieces, TargetAt(prev.board, to), Lookup(prev.pieces, prev.board[from]).value, to);
  }

  lemma MoveMaterial(ps: seq<Piece>, target: Option<PieceId>, piece: Piece, to: Square)
    requires DistinctIds(ps) && Lookup(ps, piece.id) == Some(piece)
    ensures Evaluate(PiecesAfter(ps, target, piece.(position := to, hasMoved := true))) ==
      if target.Some? && target.value != piece.id then Evaluate(ps) - Stake(ps, target.value) else Evaluate(ps)
  {
    PiecesAfterEvaluate(ps, target, piece.(position := to, hasMoved := true));
  }

  /** A piece sent to its own square takes itself: the entry is logged as a capture of its own id,
      the piece ends up last in the map, and when it is a king the game ends, won by its own side. */
  lemma SelfCapture(prev: GameState, at: Square, timestamp: int)
    requires Consistent(prev.board, prev.pieces) && OnBoard(at) && Occupied(prev.board, at)
    ensures var r := MakeMove(prev, at, at, timestamp);
      var id := prev.board[at];
      && r.Ok? && Lookup(prev.pieces, id).Some?
      && (var next := r.value;
          var piece := Lookup(prev.pieces, id).value;
          && |next.history| > 0 && |next.pieces| > 0
          && next.history[|next.history| - 1].capturedPieceId == Some(id)
          && 'x' in next.history[|next.history| - 1].notation
          && next.pieces[|next.pieces| - 1] == piece.(hasMoved := true)
          && (next.isGameOver <==> piece.kind == King)
          && (piece.kind == King ==> next.winner == Victor(piece.side)))
  {
    var id := prev.board[at];
    MoverFacts(prev.board, prev.pieces, at, at);
    SelfCaptureMoved(prev, at, timestamp);
  }

  lemma SelfCaptureMoved(prev: GameState, at: Square, timestamp: int)
    requires RowExists(at.rank) && Occupied(prev.board, at)
    requires DistinctIds(prev.pieces) && Lookup(prev.pieces, prev.board[at]).Some?
    ensures var r := MakeMove(prev, at, at, timestamp);
      var id := prev.board[at];
      && r.Ok? && Lookup(prev.pieces, id).Some?
      && (var next := r.value;
          var piece := Lookup(prev.pieces, id).value;
          && |next.history| > 0 && |next.pieces| > 0
          && next.history[|next.history| - 1].capturedPieceId == Some(id)
          && 'x' in next.history[|next.history| - 1].notation
          && next.pieces[|next.pieces| - 1] == piece.(position := at, hasMoved := true)
          && (next.isGameOver <==> piece.kind == King)
          && (piece.kind == King ==> next.winner == Victor(piece.side)))
  {
    var id := prev.board[at];
    var piece := Lookup(prev.pieces, id).value;
    MakeMoveResult(prev, at, at, timestamp);
    var moved := piece.(position := at, hasMoved := true);
    var mid := Remove(prev.pieces, id);
    LookupRemove(prev.pieces, id, id);
    assert Put(mid, moved) == mid + [moved];
    CaptureMarked(piece, at, true);
  }

  /** The state after the agent finds no move: the game is over and drawn, nothing else changes. */
  function DeclareDraw(s: GameState): (r: GameState)
    ensures r.isGameOver && r.winner == Drawn
    ensures r.(isGameOver := s.isGameOver, winner := s.winner) == s
  {
    s.(isGameOver := true, winner := Drawn)
  }
}
