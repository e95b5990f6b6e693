/** How the engine reads and copies the board, and the invariant tying the board to the piece map. */
module BoardState {
  import opened Types
  import opened Roster

  /** `board[rank][file]` read as a truth value: a missing row is a crash; a file the row does not
      hold, a cleared cell and an empty id all read as no piece. */
  function CellAt(b: Board, s: Square): (r: Result<Option<PieceId>>)
    ensures r.Crash? <==> !RowExists(s.rank)
    ensures r.Ok? ==> (r.value.Some? <==> s in b && b[s] != "")
    ensures r.Ok? && r.value.Some? ==> r.value == Some(b[s])
  {
    if !RowExists(s.rank) then Crash(MissingRow(s.rank))
    else if s in b && b[s] != "" then Ok(Some(b[s]))
    else Ok(None)
  }

  /** Indices an array keeps when it is copied with `[...row]`; any other key written into a row
      is a plain property and is not copied. */
  predicate IsArrayIndex(i: int) {
    0 <= i <= 0xFFFF_FFFE
  }

  /** `board.map(row => [...row])`. */
  function CopyRows(b: Board): (c: Board)
    ensures forall s | s in c :: s in b && c[s] == b[s]
    ensures forall s | s in b :: s in c <==> IsArrayIndex(s.file)
  {
    map s | s in b && IsArrayIndex(s.file) :: b[s]
  }

  /** The board and the piece map describe the same position: ids are non-empty keys held once,
      every piece stands on the board at the cell that names it, and every occupied cell names a
      piece standing there. */
  predicate Consistent(b: Board, ps: seq<Piece>) {
    && DistinctIds(ps)
    && (forall p | p in ps :: p.id != "")
    && (forall p | p in ps :: OnBoard(p.position) && p.position in b && b[p.position] == p.id)
    && (forall s | s in b :: Lookup(ps, b[s]).Some? && Lookup(ps, b[s]).value.position == s)
  }

  /** Under the invariant, cell `s` names `id` exactly when the piece stored under `id` stands on `s`. */
  lemma ConsistentCells(b: Board, ps: seq<Piece>, s: Square, id: PieceId)
    requires Consistent(b, ps)
    ensures (s in b && b[s] == id) <==> (Lookup(ps, id).Some? && Lookup(ps, id).value.position == s)
  {
  }

  /** Under the invariant no two pieces share a square, and only on-board cells are occupied. */
  lemma ConsistentSquares(b: Board, ps: seq<Piece>)
    requires Consistent(b, ps)
    ensures forall p, q | p in ps && q in ps && p.position == q.position :: p == q
    ensures forall s | s in b :: OnBoard(s)
  {
    forall p, q | p in ps && q in ps && p.position == q.position ensures p == q {
      LookupMember(ps, p);
      LookupMember(ps, q);
    }
  }

  /** Under the invariant, copying the rows changes nothing. */
  lemma CopyRowsConsistent(b: Board, ps: seq<Piece>)
    requires Consistent(b, ps)
    ensures CopyRows(b) == b
  {
    ConsistentSquares(b, ps);
  }

  /** Under the invariant, reading an existing row of the board agrees with scanning the piece map:
      the cell names a piece exactly when a piece stands there, and it names that piece. */
  lemma CellAtOccupant(b: Board, ps: seq<Piece>, s: Square)
    requires Consistent(b, ps) && RowExists(s.rank)
    ensures CellAt(b, s).Ok?
    ensures CellAt(b, s).value.Some? <==> Occupant(ps, s).Some?
    ensures CellAt(b, s).value.Some? ==> CellAt(b, s).value.value == Occupant(ps, s).value.id
  {
    OccupantIsCell(b, ps, s);
  }

  /** Under the invariant, the piece `isOccupied` finds on a square is the one the board names. */
  lemma OccupantIsCell(b: Board, ps: seq<Piece>, s: Square)
    requires Consistent(b, ps)
    ensures Occupant(ps, s).Some? <==> s in b
    ensures s in b ==> Occupant(ps, s) == Lookup(ps, b[s])
  {
    ConsistentSquares(b, ps);
    if s in b {
      var p := Lookup(ps, b[s]).value;
      assert p in ps && p.position == s;
      LookupMember(ps, p);
    }
  }
}
