/** The pseudo-legal move generator (`getValidMoves`).

    For one piece and the piece map it lists destination squares in a fixed order: the offsets or
    directions of the piece type, in the order the engine enumerates them. Only occupancy is
    consulted: there is no check detection, castling, en passant or promotion. Occupancy is asked of
    the piece map, never of the board. */
module MoveGen {
  import opened Types
  import opened Roster

  datatype Offset = Offset(dr: int, df: int)

  function Shift(s: Square, o: Offset): Square {
    Square(s.rank + o.dr, s.file + o.df)
  }

  /** The square `k` steps from `s` in direction `d`. */
  function Along(s: Square, d: Offset, k: nat): Square
    decreases k
  {
    if k == 0 then s else Along(Shift(s, d), d, k - 1)
  }

  /** Walking `k` steps moves by `k` times the direction. */
  lemma {:induction false} AlongDistance(s: Square, d: Offset, k: nat)
    ensures Along(s, d, k) == Square(s.rank + k * d.dr, s.file + k * d.df)
    decreases k
  {
    if k > 0 {
      AlongDistance(Shift(s, d), d, k - 1);
    }
  }

  /** `isOccupied` found nothing on `s`. */
  predicate Empty(ps: seq<Piece>, s: Square) {
    Occupant(ps, s).None?
  }

  /** `isOccupied` found a piece of `side` on `s`. */
  predicate Friendly(ps: seq<Piece>, side: Side, s: Square) {
    Occupant(ps, s).Some? && Occupant(ps, s).value.side == side
  }

  /** `isOccupied` found a piece of the other side on `s`. */
  predicate Hostile(ps: seq<Piece>, side: Side, s: Square) {
    Occupant(ps, s).Some? && Occupant(ps, s).value.side != side
  }

  const KnightOffsets: seq<Offset> := [
    Offset(-2, -1), Offset(-2, 1), Offset(-1, -2), Offset(-1, 2),
    Offset(1, -2), Offset(1, 2), Offset(2, -1), Offset(2, 1)]

  const KingOffsets: seq<Offset> := [
    Offset(-1, -1), Offset(-1, 0), Offset(-1, 1), Offset(0, -1),
    Offset(0, 1), Offset(1, -1), Offset(1, 0), Offset(1, 1)]

  const BishopDirections: seq<Offset> := [Offset(-1, -1), Offset(-1, 1), Offset(1, -1), Offset(1, 1)]

  const RookDirections: seq<Offset> := [Offset(-1, 0), Offset(1, 0), Offset(0, -1), Offset(0, 1)]

  const QueenDirections: seq<Offset> := BishopDirections + RookDirections

  /** A direction along which a ray advances. */
  predicate Moving(d: Offset) {
    d.dr != 0 || d.df != 0
  }

  /** `addMoveIfValid`: the square is on the board and does not hold a piece of the mover's side. */
  predicate Lands(ps: seq<Piece>, side: Side, t: Square) {
    OnBoard(t) && !Friendly(ps, side, t)
  }

  /** Knight and king moves: each offset in order, kept when `addMoveIfValid` accepts it. */
  function Leaps(ps: seq<Piece>, side: Side, from: Square, offsets: seq<Offset>): (r: seq<Square>)
    ensures |r| <= |offsets|
  {
    if |offsets| == 0 then []
    else
      var t := Shift(from, offsets[0]);
      (if Lands(ps, side, t) then [t] else []) + Leaps(ps, side, from, offsets[1..])
  }

  /** A square is listed exactly when some offset leads to it and `addMoveIfValid` accepts it. */
  lemma {:induction false} LeapsMembers(ps: seq<Piece>, side: Side, from: Square, offsets: seq<Offset>)
    ensures forall t :: t in Leaps(ps, side, from, offsets) <==>
      exists o | o in offsets :: t == Shift(from, o) && Lands(ps, side, t)
  {
    if |offsets| > 0 {
      LeapsMembers(ps, side, from, offsets[1..]);
      assert offsets == [offsets[0]] + offsets[1..];
    }
  }

  /** How many more squares a ray in direction `d` can visit from `at` before leaving the board
      along its main axis. */
  function Budget(at: Square, d: Offset): nat {
    if d.dr > 0 then (if at.rank <= 8 then 8 - at.rank else 0)
    else if d.dr < 0 then (if at.rank >= -1 then at.rank + 1 else 0)
    else if d.df > 0 then (if at.file <= 8 then 8 - at.file else 0)
    else (if at.file >= -1 then at.file + 1 else 0)
  }

  /** One ray of `slidingMoves`, from the square `at` onward: empty squares are taken and the ray goes
      on; an occupied square ends it, and is taken only when it holds an enemy piece. */
  function Ray(ps: seq<Piece>, side: Side, at: Square, d: Offset): (r: seq<Square>)
    requires Moving(d)
    ensures |r| <= Budget(at, d)
    decreases Budget(at, d)
  {
    if !OnBoard(at) then []
    else
      match Occupant(ps, at)
      case None => [at] + Ray(ps, side, Shift(at, d), d)
      case Some(p) => if p.side != side then [at] else []
  }

  /** A ray is a run of consecutive squares along `d` starting at `at`, all on the board; every
      square but the last is empty; a last square that is occupied holds an enemy piece; and when
      the run ends on an empty square (or is empty), the next square along `d` is off the board or
      holds a piece of the mover's side. */
  lemma RayShape(ps: seq<Piece>, side: Side, at: Square, d: Offset)
    requires Moving(d)
    ensures var r := Ray(ps, side, at, d);
      && (forall i | 0 <= i < |r| :: r[i] == Along(at, d, i) && OnBoard(r[i]))
      && (forall i | 0 <= i < |r| - 1 :: Empty(ps, r[i]))
      && (|r| > 0 && !Empty(ps, r[|r| - 1]) ==> Hostile(ps, side, r[|r| - 1]))
      && (|r| == 0 || Empty(ps, r[|r| - 1]) ==>
            !OnBoard(Along(at, d, |r|)) || Friendly(ps, side, Along(at, d, |r|)))
  {
    RayAlong(ps, side, at, d);
    RayStops(ps, side, at, d);
    RayEnd(ps, side, at, d);
    RayBlocked(ps, side, at, d);
  }

  lemma {:induction false} RayAlong(ps: seq<Piece>, side: Side, at: Square, d: Offset)
    requires Moving(d)
    ensures var r := Ray(ps, side, at, d);
      forall i | 0 <= i < |r| :: r[i] == Along(at, d, i) && OnBoard(r[i])
    decreases Budget(at, d)
  {
    var r := Ray(ps, side, at, d);
    if OnBoard(at) && Occupant(ps, at).None? {
      var next := Shift(at, d);
      var rest := Ray(ps, side, next, d);
      RayAlong(ps, side, next, d);
      assert r == [at] + rest;
      forall i | 0 <= i < |r| ensures r[i] == Along(at, d, i) && OnBoard(r[i]) {
        if i > 0 {
          assert r[i] == rest[i - 1];
          assert Along(at, d, i) == Along(next, d, i - 1);
        }
      }
    }
  }

  lemma {:induction false} RayStops(ps: seq<Piece>, side: Side, at: Square, d: Offset)
    requires Moving(d)
    ensures forall i | 0 <= i < |Ray(ps, side, at, d)| - 1 :: Empty(ps, Ray(ps, side, at, d)[i])
    decreases Budget(at, d)
  {
    var r := Ray(ps, side, at, d);
    if OnBoard(at) && Occupant(ps, at).None? {
      var next := Shift(at, d);
      var rest := Ray(ps, side, next, d);
      RayStops(ps, side, next, d);
      assert r == [at] + rest;
      forall i | 0 <= i < |r| - 1 ensures Empty(ps, r[i]) {
        if i == 0 {
          assert r[i] == at;
        } else {
          assert r[i] == rest[i - 1];
        }
      }
    }
  }

  lemma {:induction false} RayEnd(ps: seq<Piece>, side: Side, at: Square, d: Offset)
    requires Moving(d)
    ensures var r := Ray(ps, side, at, d);
      |r| > 0 && !Empty(ps, r[|r| - 1]) ==> Hostile(ps, side, r[|r| - 1])
    decreases Budget(at, d)
  {
    var r := Ray(ps, side, at, d);
    if OnBoard(at) && Occupant(ps, at).None? {
      var next := Shift(at, d);
      var rest := Ray(ps, side, next, d);
      RayEnd(ps, side, next, d);
      assert r == [at] + rest;
      if |rest| > 0 {
        assert r[|r| - 1] == rest[|rest| - 1];
      }
    } else if OnBoard(at) {
      assert r == if Occupant(ps, at).value.side != side then [at] else [];
    }
  }

  lemma {:induction false} RayBlocked(ps: seq<Piece>, side: Side, at: Square, d: Offset)
    requires Moving(d)
    ensures var r := Ray(ps, side, at, d);
      |r| == 0 || Empty(ps, r[|r| - 1]) ==>
        !OnBoard(Along(at, d, |r|)) || Friendly(ps, side, Along(at, d, |r|))
    decreases Budget(at, d)
  {
    var r := Ray(ps, side, at, d);
    assert Along(at, d, 0) == at;
    if OnBoard(at) && Occupant(ps, at).None? {
      var next := Shift(at, d);
      var rest := Ray(ps, side, next, d);
      RayBlocked(ps, side, next, d);
      assert r == [at] + rest;
      assert Along(at, d, |r|) == Along(next, d, |rest|);
      if |rest| > 0 {
        assert r[|r| - 1] == rest[|rest| - 1];
      } else {
        assert Along(next, d, 0) == next;
      }
    } else if OnBoard(at) {
      assert r == if Occupant(ps, at).value.side != side then [at] else [];
    }
  }

  /** The ray `slidingMoves` casts from `from` in direction `d`, starting next to `from`. */
  function RayFrom(ps: seq<Piece>, side: Side, from: Square, d: Offset): seq<Square>
    requires Moving(d)
  {
    Ray(ps, side, Shift(from, d), d)
  }

  /** `slidingMoves(directions)`: the rays of every direction, one after another. */
  function Slides(ps: seq<Piece>, side: Side, from: Square, dirs: seq<Offset>): (r: seq<Square>)
    requires forall d | d in dirs :: Moving(d)
    ensures forall t :: t in r <==> exists d | d in dirs :: t in RayFrom(ps, side, from, d)
  {
    if |dirs| == 0 then []
    else
      assert dirs == [dirs[0]] + dirs[1..];
      RayFrom(ps, side, from, dirs[0]) + Slides(ps, side, from, dirs[1..])
  }

  /** The rank direction a pawn advances in: up the board for white, down for black. */
  function Forward(side: Side): int {
    if side == White then 1 else -1
  }

  /** The diagonal capture of a pawn towards file offset `df`: kept only when an enemy stands there. */
  function PawnCapture(ps: seq<Piece>, pawn: Piece, df: int): seq<Square> {
    var t := Square(pawn.position.rank + Forward(pawn.side), pawn.position.file + df);
    if Hostile(ps, pawn.side, t) then [t] else []
  }

  /** Pawn moves: the single step (not bounds-checked) when empty, then the double step when the pawn
      has not moved and that square is empty too, then the captures towards file +1 and file -1. */
  function PawnMoves(ps: seq<Piece>, pawn: Piece): seq<Square> {
    var dir := Forward(pawn.side);
    var r := pawn.position.rank;
    var f := pawn.position.file;
    var one := Square(r + dir, f);
    var two := Square(r + 2 * dir, f);
    var advance :=
      if Empty(ps, one) then [one] + (if !pawn.hasMoved && Empty(ps, two) then [two] else [])
      else [];
    advance + PawnCapture(ps, pawn, 1) + PawnCapture(ps, pawn, -1)
  }

  lemma DirectionsMove()
    ensures forall d | d in BishopDirections :: Moving(d)
    ensures forall d | d in RookDirections :: Moving(d)
    ensures forall d | d in QueenDirections :: Moving(d)
  {
  }

  /** `getValidMoves(piece, pieces)`. */
  function ValidMoves(piece: Piece, ps: seq<Piece>): seq<Square> {
    DirectionsMove();
    match piece.kind
    case Pawn => PawnMoves(ps, piece)
    case Knight => Leaps(ps, piece.side, piece.position, KnightOffsets)
    case Bishop => Slides(ps, piece.side, piece.position, BishopDirections)
    case Rook => Slides(ps, piece.side, piece.position, RookDirections)
    case Queen => Slides(ps, piece.side, piece.position, QueenDirections)
    case King => Leaps(ps, piece.side, piece.position, KingOffsets)
  }
}
