/** What the move generator guarantees, stated against independent descriptions of each rule. */
module MoveGenProps {
  import opened Types
  import opened Roster
  import opened MoveGen

  /** Every square strictly between `from` and `k` steps along `d` is on the board and empty. */
  predicate ClearPath(ps: seq<Piece>, from: Square, d: Offset, k: nat) {
    forall j: nat | 1 <= j < k :: OnBoard(Along(from, d, j)) && Empty(ps, Along(from, d, j))
  }

  /** The sliding rule: `t` lies some `k >= 1` steps from `from` along `d`, nothing stands in
      between, and `t` itself is on the board and not held by the mover's side. */
  ghost predicate Reaches(ps: seq<Piece>, side: Side, from: Square, d: Offset, t: Square) {
    exists k: nat :: 1 <= k && t == Along(from, d, k) && ClearPath(ps, from, d, k) && Lands(ps, side, t)
  }

  /** A ray yields exactly the squares the sliding rule reaches in its direction. */
  lemma RayReachesExactly(ps: seq<Piece>, side: Side, from: Square, d: Offset, t: Square)
    requires Moving(d)
    ensures t in RayFrom(ps, side, from, d) <==> Reaches(ps, side, from, d, t)
  {
    if t in RayFrom(ps, side, from, d) {
      RayOnlyReaches(ps, side, from, d, t);
    }
    if Reaches(ps, side, from, d, t) {
      var k: nat :| 1 <= k && t == Along(from, d, k) && ClearPath(ps, from, d, k) && Lands(ps, side, t);
      RayReachesAll(ps, side, from, d, k);
    }
  }

  lemma RayOnlyReaches(ps: seq<Piece>, side: Side, from: Square, d: Offset, t: Square)
    requires Moving(d) && t in RayFrom(ps, side, from, d)
    ensures Reaches(ps, side, from, d, t)
  {
    var at := Shift(from, d);
    var r := Ray(ps, side, at, d);
    RayShape(ps, side, at, d);
    var i :| 0 <= i < |r| && r[i] == t;
    assert t == Along(from, d, i + 1);
    forall j: nat | 1 <= j < i + 1 ensures OnBoard(Along(from, d, j)) && Empty(ps, Along(from, d, j)) {
      assert Along(from, d, j) == Along(at, d, j - 1) == r[j - 1];
    }
    assert ClearPath(ps, from, d, i + 1);
    assert Lands(ps, side, t);
  }

  lemma RayReachesAll(ps: seq<Piece>, side: Side, from: Square, d: Offset, k: nat)
    requires Moving(d) && 1 <= k
    requires ClearPath(ps, from, d, k) && Lands(ps, side, Along(from, d, k))
    ensures Along(from, d, k) in RayFrom(ps, side, from, d)
  {
    var at := Shift(from, d);
    forall j: nat | j < k - 1 ensures OnBoard(Along(at, d, j)) && Empty(ps, Along(at, d, j)) {
      assert Along(at, d, j) == Along(from, d, j + 1);
    }
    RayCovers(ps, side, at, d, k - 1);
  }

  /** A ray takes the square `k` steps on when every square before it is on the board and empty
      and that square is on the board and not held by the mover's side. */
  lemma {:induction false} RayCovers(ps: seq<Piece>, side: Side, at: Square, d: Offset, k: nat)
    requires Moving(d)
    requires forall j: nat | j < k :: OnBoard(Along(at, d, j)) && Empty(ps, Along(at, d, j))
    requires Lands(ps, side, Along(at, d, k))
    ensures Along(at, d, k) in Ray(ps, side, at, d)
    decreases k
  {
    assert Along(at, d, 0) == at;
    if k > 0 {
      var next := Shift(at, d);
      assert OnBoard(at) && Empty(ps, at);
      forall j: nat | j < k - 1 ensures OnBoard(Along(next, d, j)) && Empty(ps, Along(next, d, j)) {
        assert Along(next, d, j) == Along(at, d, j + 1);
      }
      RayCovers(ps, side, next, d, k - 1);
      assert Ray(ps, side, at, d) == [at] + Ray(ps, side, next, d);
    }
  }

  /** The squares of a pawn's move list, as the rules for its side describe them. */
  ghost predicate PawnRule(ps: seq<Piece>, pawn: Piece, t: Square) {
    var dir := Forward(pawn.side);
    var r := pawn.position.rank;
    var f := pawn.position.file;
    || (t == Square(r + dir, f) && Empty(ps, t))
    || (t == Square(r + 2 * dir, f) && !pawn.hasMoved && Empty(ps, Square(r + dir, f)) && Empty(ps, t))
    || ((t == Square(r + dir, f + 1) || t == Square(r + dir, f - 1)) && Hostile(ps, pawn.side, t))
  }

  /** A pawn's move list is exactly what the pawn rules allow, at most four squares. */
  lemma PawnMovesExactly(ps: seq<Piece>, pawn: Piece)
    ensures |PawnMoves(ps, pawn)| <= 4
    ensures forall t :: t in PawnMoves(ps, pawn) <==> PawnRule(ps, pawn, t)
  {
  }

  /** The double step appears exactly when the pawn has not moved and both squares ahead are
      empty; it is two ranks forward, up for white and down for black. */
  lemma PawnDoubleStep(ps: seq<Piece>, pawn: Piece)
    ensures var dir := Forward(pawn.side);
            var r := pawn.position.rank;
            var f := pawn.position.file;
            var two := Square(r + 2 * dir, f);
            two in PawnMoves(ps, pawn) <==>
              !pawn.hasMoved && Empty(ps, Square(r + dir, f)) && Empty(ps, two)
    ensures Forward(White) == 1 && Forward(Black) == -1
  {
    PawnMovesExactly(ps, pawn);
  }

  /** A pawn's forward steps always land on empty squares; its diagonal steps always land on an
      enemy piece, so if every piece stands on the board the diagonal steps do as well. */
  lemma PawnTargets(ps: seq<Piece>, pawn: Piece)
    ensures forall t | t in PawnMoves(ps, pawn) && t.file == pawn.position.file :: Empty(ps, t)
    ensures forall t | t in PawnMoves(ps, pawn) && t.file != pawn.position.file :: Hostile(ps, pawn.side, t)
    ensures (forall p | p in ps :: OnBoard(p.position)) ==>
      forall t | t in PawnMoves(ps, pawn) && t.file != pawn.position.file :: OnBoard(t)
  {
    PawnMovesExactly(ps, pawn);
  }

  /** The rank a pawn of `side` last reaches: 7 for white, 0 for black. */
  function LastRank(side: Side): int {
    if side == White then 7 else 0
  }

  /** The single step is not bounds-checked: a pawn on its last rank, with nothing standing beyond
      the board, is offered the square one rank past the edge. */
  lemma PawnStepsOffBoard(ps: seq<Piece>, pawn: Piece)
    requires pawn.kind == Pawn && pawn.position.rank == LastRank(pawn.side)
    requires forall p | p in ps :: OnBoard(p.position)
    ensures Square(pawn.position.rank + Forward(pawn.side), pawn.position.file) in ValidMoves(pawn, ps)
    ensures !RowExists(pawn.position.rank + Forward(pawn.side))
  {
    PawnMovesExactly(ps, pawn);
  }

  /** From a square of the board, with every piece on the board, a generated square always lies on
      one of the eight files, and it is on the board whenever its rank is. Only a pawn's forward
      step can leave the ranks. */
  lemma ValidMovesOnFiles(piece: Piece, ps: seq<Piece>)
    requires OnBoard(piece.position)
    requires forall p | p in ps :: OnBoard(p.position)
    ensures forall t | t in ValidMoves(piece, ps) :: 0 <= t.file < 8 && (RowExists(t.rank) ==> OnBoard(t))
  {
    ValidMovesSound(piece, ps);
    if piece.kind == Pawn {
      PawnTargets(ps, piece);
      PawnMovesExactly(ps, piece);
    }
  }

  lemma RayFromOnBoard(ps: seq<Piece>, side: Side, from: Square, d: Offset)
    requires Moving(d)
    ensures forall t | t in RayFrom(ps, side, from, d) :: OnBoard(t) && t != from && !Friendly(ps, side, t)
  {
    forall t | t in RayFrom(ps, side, from, d) ensures OnBoard(t) && t != from && !Friendly(ps, side, t) {
      RayReachesExactly(ps, side, from, d, t);
      var k: nat :| 1 <= k && t == Along(from, d, k) && ClearPath(ps, from, d, k) && Lands(ps, side, t);
      AlongLeaves(from, d, k);
    }
  }

  /** A step or more along a direction never returns to the start. */
  lemma AlongLeaves(s: Square, d: Offset, k: nat)
    requires Moving(d) && k >= 1
    ensures Along(s, d, k) != s
  {
    AlongDistance(s, d, k);
    if d.dr != 0 {
      assert k * d.dr != 0;
    } else {
      assert k * d.df != 0;
    }
  }

  /** No destination holds a piece of the mover's side or is the mover's own square, and every
      destination of a knight, bishop, rook, queen or king is on the board. */
  lemma ValidMovesSound(piece: Piece, ps: seq<Piece>)
    ensures forall t | t in ValidMoves(piece, ps) :: t != piece.position && !Friendly(ps, piece.side, t)
    ensures piece.kind != Pawn ==> forall t | t in ValidMoves(piece, ps) :: OnBoard(t)
  {
    DirectionsMove();
    match piece.kind
    case Pawn =>
      PawnMovesExactly(ps, piece);
    case Knight =>
      LeapsMembers(ps, piece.side, piece.position, KnightOffsets);
    case King =>
      LeapsMembers(ps, piece.side, piece.position, KingOffsets);
    case Bishop =>
      forall d | d in BishopDirections { RayFromOnBoard(ps, piece.side, piece.position, d); }
    case Rook =>
      forall d | d in RookDirections { RayFromOnBoard(ps, piece.side, piece.position, d); }
    case Queen =>
      forall d | d in QueenDirections { RayFromOnBoard(ps, piece.side, piece.position, d); }
  }

  /** A knight or king square is one of its eight offsets applied to the piece's square, kept
      exactly when it is on the board and not held by the mover's side. */
  lemma LeapsExactly(piece: Piece, ps: seq<Piece>)
    requires piece.kind == Knight || piece.kind == King
    ensures var offsets := if piece.kind == Knight then KnightOffsets else KingOffsets;
            forall t :: t in ValidMoves(piece, ps) <==>
              exists o | o in offsets :: t == Shift(piece.position, o) && Lands(ps, piece.side, t)
  {
    LeapsMembers(ps, piece.side, piece.position, KnightOffsets);
    LeapsMembers(ps, piece.side, piece.position, KingOffsets);
  }

  /** A bishop, rook or queen square is one its rules reach along one of its directions. */
  lemma SlidesExactly(piece: Piece, ps: seq<Piece>)
    requires piece.kind == Bishop || piece.kind == Rook || piece.kind == Queen
    ensures var dirs := if piece.kind == Bishop then BishopDirections
                        else if piece.kind == Rook then RookDirections else QueenDirections;
            forall t :: t in ValidMoves(piece, ps) <==>
              exists d | d in dirs :: Reaches(ps, piece.side, piece.position, d, t)
  {
    DirectionsMove();
    forall d, t | d in QueenDirections {
      RayReachesExactly(ps, piece.side, piece.position, d, t);
    }
  }

  /** A direction of unit steps along each axis. */
  predicate UnitStep(d: Offset) {
    -1 <= d.dr <= 1 && -1 <= d.df <= 1 && Moving(d)
  }

  lemma {:induction false} SlidesLength(ps: seq<Piece>, side: Side, from: Square, dirs: seq<Offset>)
    requires OnBoard(from)
    requires forall d | d in dirs :: UnitStep(d)
    ensures forall d | d in dirs :: Moving(d)
    ensures |Slides(ps, side, from, dirs)| <= 7 * |dirs|
  {
    if |dirs| > 0 {
      assert forall d | d in dirs[1..] :: d in dirs;
      SlidesLength(ps, side, from, dirs[1..]);
      RayFromLength(ps, side, from, dirs[0]);
    }
  }

  lemma RayFromLength(ps: seq<Piece>, side: Side, from: Square, d: Offset)
    requires OnBoard(from) && UnitStep(d)
    ensures |RayFrom(ps, side, from, d)| <= 7
  {
    assert Budget(Shift(from, d), d) <= 7;
  }

  /** A knight or king has at most 8 moves, a pawn at most 4; on the board a bishop or rook has at
      most 28 and a queen at most 56 (at most 7 squares along each direction). */
  lemma MoveCounts(piece: Piece, ps: seq<Piece>)
    ensures piece.kind == Knight || piece.kind == King ==> |ValidMoves(piece, ps)| <= 8
    ensures piece.kind == Pawn ==> |ValidMoves(piece, ps)| <= 4
    ensures OnBoard(piece.position) && (piece.kind == Bishop || piece.kind == Rook) ==> |ValidMoves(piece, ps)| <= 28
    ensures OnBoard(piece.position) && piece.kind == Queen ==> |ValidMoves(piece, ps)| <= 56
  {
    if piece.kind == Pawn {
      PawnMovesExactly(ps, piece);
    }
    if OnBoard(piece.position) {
      SlidesLength(ps, piece.side, piece.position, BishopDirections);
      SlidesLength(ps, piece.side, piece.position, RookDirections);
      SlidesLength(ps, piece.side, piece.position, QueenDirections);
    }
  }

  lemma LeapsStep(ps: seq<Piece>, side: Side, from: Square, o: Offset, rest: seq<Offset>)
    ensures Leaps(ps, side, from, [o] + rest)
         == (if Lands(ps, side, Shift(from, o)) then [Shift(from, o)] else []) + Leaps(ps, side, from, rest)
  {
    assert ([o] + rest)[1..] == rest;
  }

  /** A lone knight on rank 0, file 1 has three moves, listed in the order of its offsets. */
  lemma LoneKnightExample(knight: Piece)
    requires knight.kind == Knight && knight.position == Square(0, 1)
    ensures ValidMoves(knight, [knight]) == [Square(1, 3), Square(2, 0), Square(2, 2)]
  {
    var ps := [knight];
    var side := knight.side;
    var from := knight.position;
    var k := KnightOffsets;
    LoneKnightLanding(knight);
    assert Leaps(ps, side, from, k[3..]) == [Square(1, 3), Square(2, 0), Square(2, 2)] by {
      LeapsStep(ps, side, from, k[3], k[4..]);
      assert [k[3]] + k[4..] == k[3..];
    }
    assert Leaps(ps, side, from, k[2..]) == [Square(1, 3), Square(2, 0), Square(2, 2)] by {
      LeapsStep(ps, side, from, k[2], k[3..]);
      assert [k[2]] + k[3..] == k[2..];
    }
    assert Leaps(ps, side, from, k[1..]) == [Square(1, 3), Square(2, 0), Square(2, 2)] by {
      LeapsStep(ps, side, from, k[1], k[2..]);
      assert [k[1]] + k[2..] == k[1..];
    }
    assert Leaps(ps, side, from, k) == [Square(1, 3), Square(2, 0), Square(2, 2)] by {
      LeapsStep(ps, side, from, k[0], k[1..]);
      assert [k[0]] + k[1..] == k;
    }
  }

  /** Of the last four knight offsets from b1, the first leaves the board and the other three land. */
  lemma LoneKnightLanding(knight: Piece)
    requires knight.kind == Knight && knight.position == Square(0, 1)
    ensures Leaps([knight], knight.side, knight.position, KnightOffsets[4..]) ==
      [Square(1, 3), Square(2, 0), Square(2, 2)]
  {
    var ps := [knight];
    var side := knight.side;
    var from := knight.position;
    var k := KnightOffsets;
    assert Leaps(ps, side, from, k[7..]) == [Square(2, 2)] by {
      assert Lands(ps, side, Square(2, 2));
      LeapsStep(ps, side, from, k[7], []);
      assert [k[7]] + [] == k[7..];
    }
    assert Leaps(ps, side, from, k[6..]) == [Square(2, 0), Square(2, 2)] by {
      assert Lands(ps, side, Square(2, 0));
      LeapsStep(ps, side, from, k[6], k[7..]);
      assert [k[6]] + k[7..] == k[6..];
    }
    assert Leaps(ps, side, from, k[5..]) == [Square(1, 3), Square(2, 0), Square(2, 2)] by {
      assert Lands(ps, side, Square(1, 3));
      LeapsStep(ps, side, from, k[5], k[6..]);
      assert [k[5]] + k[6..] == k[5..];
    }
    LeapsStep(ps, side, from, k[4], k[5..]);
    assert [k[4]] + k[5..] == k[4..];
  }
}
