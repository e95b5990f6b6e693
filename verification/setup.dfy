/** The starting position (`createInitialState`): each side places its back rank in the order
    rook, knight, bishop, queen, king, bishop, knight, rook along files 0..7 and then eight pawns on
    the rank in front; white first on ranks 0 and 1, then black on ranks 7 and 6. A piece's id is
    `side-type-rank-file`. */
module Setup {
  import opened Types
  import opened Roster
  import opened Notation
  import opened Evaluation
  import opened BoardState

  const BackRank: seq<PieceType> := [Rook, Knight, Bishop, Queen, King, Bishop, Knight, Rook]

  const PawnRank: seq<PieceType> := [Pawn, Pawn, Pawn, Pawn, Pawn, Pawn, Pawn, Pawn]

  /** The id `addPiece` gives a piece: `${side}-${type}-${r}-${f}`. */
  function PieceIdFor(kind: PieceType, side: Side, r: int, f: int): PieceId {
    SideName(side) + "-" + TypeName(kind) + "-" + IntToDecimal(r) + "-" + IntToDecimal(f)
  }

  function NewPiece(kind: PieceType, side: Side, r: int, f: int): Piece {
    Piece(PieceIdFor(kind, side, r, f), kind, side, Square(r, f), false)
  }

  /** The pieces `addPiece` creates for `kinds` on rank `r`, the i-th on file `f0 + i`. */
  function Row(kinds: seq<PieceType>, side: Side, r: int, f0: int): seq<Piece> {
    seq(|kinds|, i requires 0 <= i < |kinds| => NewPiece(kinds[i], side, r, f0 + i))
  }

  /** `setupSide`: the back rank, then the pawns. */
  function SetupSide(side: Side, mainRank: int, pawnRank: int): seq<Piece> {
    Row(BackRank, side, mainRank, 0) + Row(PawnRank, side, pawnRank, 0)
  }

  /** Every `addPiece` call in order. */
  function Placements(): seq<Piece> {
    SetupSide(White, 0, 1) + SetupSide(Black, 7, 6)
  }

  /** `addPiece` applied to each piece in turn: store it under its id and write its id on its square. */
  function AddAll(ps: seq<Piece>, b: Board, adds: seq<Piece>): (r: (seq<Piece>, Board))
    decreases |adds|
  {
    if |adds| == 0 then (ps, b)
    else AddAll(Put(ps, adds[0]), b[adds[0].position := adds[0].id], adds[1..])
  }

  /** `createInitialState()`. */
  function InitialState(): GameState {
    var built := AddAll([], map[], Placements());
    GameState(built.1, built.0, White, [], false, NoWinner, 0)
  }

  /** The piece `Placements` puts in slot `i`. */
  function Slot(i: int): Piece
    requires 0 <= i < 32
  {
    if i < 8 then NewPiece(BackRank[i], White, 0, i)
    else if i < 16 then NewPiece(Pawn, White, 1, i - 8)
    else if i < 24 then NewPiece(BackRank[i - 16], Black, 7, i - 16)
    else NewPiece(Pawn, Black, 6, i - 24)
  }

  lemma PlacementSlot(i: int)
    requires 0 <= i < 32
    ensures |Placements()| == 32 && Placements()[i] == Slot(i)
  {
    var w := SetupSide(White, 0, 1);
    var k := SetupSide(Black, 7, 6);
    if i < 16 {
      assert Placements()[i] == w[i];
    } else {
      assert Placements()[i] == k[i - 16];
    }
  }

  /** For coordinates 0..7 the id ends in the rank digit, a dash and the file digit. */
  lemma PieceIdDigits(kind: PieceType, side: Side, r: int, f: int)
    requires 0 <= r < 8 && 0 <= f < 8
    ensures var id := PieceIdFor(kind, side, r, f);
      |id| >= 3 && id[|id| - 1] == Digit(f) && id[|id| - 3] == Digit(r)
  {
    var id := PieceIdFor(kind, side, r, f);
    assert id == (SideName(side) + "-" + TypeName(kind) + "-") + [Digit(r), '-', Digit(f)];
  }

  /** Pieces standing on different squares get different ids. */
  lemma PieceIdsDiffer(k1: PieceType, s1: Side, r1: int, f1: int, k2: PieceType, s2: Side, r2: int, f2: int)
    requires 0 <= r1 < 8 && 0 <= f1 < 8 && 0 <= r2 < 8 && 0 <= f2 < 8
    requires (r1, f1) != (r2, f2)
    ensures PieceIdFor(k1, s1, r1, f1) != PieceIdFor(k2, s2, r2, f2)
  {
    PieceIdDigits(k1, s1, r1, f1);
    PieceIdDigits(k2, s2, r2, f2);
  }

  /** The 32 placements stand on 32 different squares, so their ids are all different. */
  lemma PlacementsDistinct()
    ensures forall i, j | 0 <= i < j < |Placements()| ::
      Placements()[i].position != Placements()[j].position
    ensures DistinctIds(Placements())
  {
    forall i | 0 <= i < 32
      ensures |Placements()| == 32 && Placements()[i].position == SlotSquare(i)
      ensures Placements()[i].id == IdAt(Placements()[i])
    {
      PlacementPosition(i);
    }
    SlotsDistinct(Placements());
  }

  /** The id `addPiece` derives from a piece's type, side and square. */
  function IdAt(p: Piece): PieceId {
    PieceIdFor(p.kind, p.side, p.position.rank, p.position.file)
  }

  /** Pieces on the 32 slot squares, each under the id of its square, have distinct squares and ids. */
  lemma SlotsDistinct(ps: seq<Piece>)
    requires |ps| == 32 && forall i | 0 <= i < 32 :: ps[i].position == SlotSquare(i)
    requires forall i | 0 <= i < 32 :: ps[i].id == IdAt(ps[i])
    ensures forall i, j | 0 <= i < j < |ps| :: ps[i].position != ps[j].position
    ensures DistinctIds(ps)
  {
    forall i, j | 0 <= i < j < |ps| ensures ps[i].id != ps[j].id {
      var a := ps[i];
      var b := ps[j];
      PieceIdsDiffer(a.kind, a.side, a.position.rank, a.position.file,
                     b.kind, b.side, b.position.rank, b.position.file);
    }
  }

  /** With fresh ids, `addPiece` only ever appends to the map. */
  lemma {:induction false} AddAllPieces(ps: seq<Piece>, b: Board, adds: seq<Piece>)
    requires DistinctIds(ps + adds)
    ensures AddAll(ps, b, adds).0 == ps + adds
    decreases |adds|
  {
    if |adds| > 0 {
      var p := adds[0];
      assert p.id !in Ids(ps) by {
        forall q | q in ps ensures q.id != p.id {
          var i :| 0 <= i < |ps| && ps[i] == q;
          assert (ps + adds)[i] == q && (ps + adds)[|ps|] == p;
        }
      }
      assert ps + adds == (ps + [p]) + adds[1..];
      AddAllPieces(ps + [p], b[p.position := p.id], adds[1..]);
    }
  }

  /** With distinct squares, `addPiece` writes each id on its own square and nowhere else. */
  lemma AddAllBoard(ps: seq<Piece>, b: Board, adds: seq<Piece>)
    requires forall i, j | 0 <= i < j < |adds| :: adds[i].position != adds[j].position
    ensures var c := AddAll(ps, b, adds).1;
      && (forall i | 0 <= i < |adds| :: adds[i].position in c && c[adds[i].position] == adds[i].id)
      && (forall s | s in c :: s in b || exists i | 0 <= i < |adds| :: adds[i].position == s)
      && (forall s | s in b && (forall i | 0 <= i < |adds| :: adds[i].position != s) :: s in c && c[s] == b[s])
  {
    AddAllWrites(ps, b, adds);
    AddAllOnly(ps, b, adds);
    AddAllKeeps(ps, b, adds);
  }

  lemma {:induction false} AddAllWrites(ps: seq<Piece>, b: Board, adds: seq<Piece>)
    requires forall i, j | 0 <= i < j < |adds| :: adds[i].position != adds[j].position
    ensures forall i | 0 <= i < |adds| ::
      adds[i].position in AddAll(ps, b, adds).1 && AddAll(ps, b, adds).1[adds[i].position] == adds[i].id
    decreases |adds|
  {
    if |adds| > 0 {
      var p := adds[0];
      var b' := b[p.position := p.id];
      var rest := adds[1..];
      AddAllWrites(Put(ps, p), b', rest);
      AddAllKeeps(Put(ps, p), b', rest);
      var c := AddAll(ps, b, adds).1;
      assert c == AddAll(Put(ps, p), b', rest).1;
      forall i | 0 <= i < |adds| ensures adds[i].position in c && c[adds[i].position] == adds[i].id {
        if i == 0 {
          forall k | 0 <= k < |rest| ensures rest[k].position != p.position {
            assert rest[k] == adds[k + 1];
          }
        } else {
          assert adds[i] == rest[i - 1];
        }
      }
    }
  }

  lemma {:induction false} AddAllOnly(ps: seq<Piece>, b: Board, adds: seq<Piece>)
    ensures forall s | s in AddAll(ps, b, adds).1 :: s in b || exists i | 0 <= i < |adds| :: adds[i].position == s
    decreases |adds|
  {
    if |adds| > 0 {
      var p := adds[0];
      var b' := b[p.position := p.id];
      var rest := adds[1..];
      AddAllOnly(Put(ps, p), b', rest);
      var c := AddAll(ps, b, adds).1;
      assert c == AddAll(Put(ps, p), b', rest).1;
      forall s | s in c ensures s in b || exists i | 0 <= i < |adds| :: adds[i].position == s {
        if s !in b' {
          var k :| 0 <= k < |rest| && rest[k].position == s;
          assert adds[k + 1] == rest[k];
        } else if s == p.position {
          assert adds[0].position == s;
        }
      }
    }
  }

  lemma {:induction false} AddAllKeeps(ps: seq<Piece>, b: Board, adds: seq<Piece>)
    ensures forall s | s in b && (forall i | 0 <= i < |adds| :: adds[i].position != s) ::
      s in AddAll(ps, b, adds).1 && AddAll(ps, b, adds).1[s] == b[s]
    decreases |adds|
  {
    if |adds| > 0 {
      var p := adds[0];
      var b' := b[p.position := p.id];
      var rest := adds[1..];
      AddAllKeeps(Put(ps, p), b', rest);
      var c := AddAll(ps, b, adds).1;
      assert c == AddAll(Put(ps, p), b', rest).1;
      forall s | s in b && (forall i | 0 <= i < |adds| :: adds[i].position != s) ensures s in c && c[s] == b[s] {
        assert adds[0].position != s;
        forall k | 0 <= k < |rest| ensures rest[k].position != s {
          assert rest[k] == adds[k + 1];
        }
      }
    }
  }

  /** The summed value of a list of piece types. */
  function KindSum(kinds: seq<PieceType>): nat {
    if |kinds| == 0 then 0 else Value(kinds[0]) + KindSum(kinds[1..])
  }

  /** A list of pieces all of one side: the filter keeps all of it for that side and none of it for
      the other, which gets no power from it. */
  lemma {:induction false} OneSide(ps: seq<Piece>, side: Side)
    requires forall p | p in ps :: p.side == side
    ensures OfSide(ps, side) == ps
    ensures OfSide(ps, Opponent(side)) == []
    ensures ArmyPower(ps, Opponent(side)) == 0
  {
    if |ps| > 0 {
      assert ps[0] in ps;
      assert forall p | p in ps[1..] :: p in ps;
      OneSide(ps[1..], side);
      assert OfSide(ps, side) == [ps[0]] + ps[1..];
    }
  }

  /** The power of a one-sided list is the summed value of its types. */
  lemma {:induction false} PowerOfKinds(ps: seq<Piece>, kinds: seq<PieceType>, side: Side)
    requires |ps| == |kinds|
    requires forall i | 0 <= i < |ps| :: ps[i].kind == kinds[i] && ps[i].side == side
    ensures ArmyPower(ps, side) == KindSum(kinds)
  {
    if |ps| > 0 {
      PowerOfKinds(ps[1..], kinds[1..], side);
    }
  }

  lemma RowSides(kinds: seq<PieceType>, side: Side, r: int, f0: int)
    ensures OfSide(Row(kinds, side, r, f0), side) == Row(kinds, side, r, f0)
    ensures OfSide(Row(kinds, side, r, f0), Opponent(side)) == []
    ensures ArmyPower(Row(kinds, side, r, f0), side) == KindSum(kinds)
    ensures ArmyPower(Row(kinds, side, r, f0), Opponent(side)) == 0
  {
    var row := Row(kinds, side, r, f0);
    assert forall i | 0 <= i < |row| :: row[i].side == side && row[i].kind == kinds[i];
    OneSide(row, side);
    PowerOfKinds(row, kinds, side);
  }

  lemma BackRankSum()
    ensures KindSum(BackRank) == 131
  {
    assert BackRank[1..][1..][1..][1..][1..][1..][1..][1..] == [];
  }

  lemma PawnRankSum()
    ensures KindSum(PawnRank) == 8
  {
    assert PawnRank[1..][1..][1..][1..][1..][1..][1..][1..] == [];
  }

  /** Each side fields sixteen pieces worth 139 in all. */
  lemma SetupSideMaterial(side: Side, mainRank: int, pawnRank: int)
    ensures |OfSide(SetupSide(side, mainRank, pawnRank), side)| == 16
    ensures |OfSide(SetupSide(side, mainRank, pawnRank), Opponent(side))| == 0
    ensures ArmyPower(SetupSide(side, mainRank, pawnRank), side) == 139
    ensures ArmyPower(SetupSide(side, mainRank, pawnRank), Opponent(side)) == 0
  {
    var back := Row(BackRank, side, mainRank, 0);
    var pawns := Row(PawnRank, side, pawnRank, 0);
    RowSides(BackRank, side, mainRank, 0);
    RowSides(PawnRank, side, pawnRank, 0);
    BackRankSum();
    PawnRankSum();
    OfSideAppend(back, pawns, side);
    OfSideAppend(back, pawns, Opponent(side));
    ArmyPowerAppend(back, pawns, side);
    ArmyPowerAppend(back, pawns, Opponent(side));
  }

  /** The initial piece map holds the placements in the order they were made. */
  lemma InitialPieces()
    ensures InitialState().pieces == Placements()
  {
    PlacementsDistinct();
    BuiltPieces(Placements());
  }

  /** With fresh ids, the map built from nothing holds the pieces in the order they were added. */
  lemma BuiltPieces(adds: seq<Piece>)
    requires DistinctIds(adds)
    ensures AddAll([], map[], adds).0 == adds
  {
    assert [] + adds == adds;
    AddAllPieces([], map[], adds);
  }

  /** The starting layout: 32 unmoved pieces on the board, sixteen a side, white on ranks 0 and 1 and
      black on ranks 6 and 7, pawns exactly on ranks 1 and 6, every other piece at its place in the
      back-rank order, each under the id naming its side, type and square; white to move, nothing
      played, no result yet. */
  lemma InitialLayout()
    ensures var s := InitialState();
      && |s.pieces| == 32
      && |OfSide(s.pieces, White)| == 16 && |OfSide(s.pieces, Black)| == 16
      && (forall p | p in s.pieces :: StartingPlace(p))
      && s.turn == White && s.history == [] && !s.isGameOver && s.winner == NoWinner
  {
    InitialPieces();
    PlacementsLayout();
    PlacementsCount(White);
    PlacementsCount(Black);
  }

  /** Where and how a piece stands at the start. */
  predicate StartingPlace(p: Piece) {
    && !p.hasMoved
    && OnBoard(p.position)
    && p.id == PieceIdFor(p.kind, p.side, p.position.rank, p.position.file)
    && (p.side == White <==> p.position.rank < 2)
    && (p.kind == Pawn <==> p.position.rank == 1 || p.position.rank == 6)
    && (p.kind != Pawn ==> p.kind == BackRank[p.position.file])
  }

  lemma PlacementsLayout()
    ensures |Placements()| == 32
    ensures forall p | p in Placements() :: StartingPlace(p)
  {
    PlacementSlot(0);
    var ps := Placements();
    forall p | p in ps ensures StartingPlace(p) {
      var i :| 0 <= i < 32 && ps[i] == p;
      PlacementSlot(i);
      SlotPlace(i);
    }
  }

  lemma SlotPlace(i: int)
    requires 0 <= i < 32
    ensures StartingPlace(Slot(i))
  {
  }

  lemma PlacementsCount(side: Side)
    ensures |OfSide(Placements(), side)| == 16
  {
    SetupSideMaterial(White, 0, 1);
    SetupSideMaterial(Black, 7, 6);
    HalvesCount(SetupSide(White, 0, 1), SetupSide(Black, 7, 6), side);
  }

  /** Two one-sided halves of sixteen pieces make sixteen a side. */
  lemma HalvesCount(w: seq<Piece>, k: seq<Piece>, side: Side)
    requires |OfSide(w, White)| == 16 && |OfSide(w, Black)| == 0
    requires |OfSide(k, Black)| == 16 && |OfSide(k, White)| == 0
    ensures |OfSide(w + k, side)| == 16
  {
    OfSideAppend(w, k, side);
  }

  /** Both armies start at 139, so the evaluation the state carries, 0, is the material balance. */
  lemma InitialMaterial()
    ensures ArmyPower(InitialState().pieces, White) == 139
    ensures ArmyPower(InitialState().pieces, Black) == 139
    ensures InitialState().evaluation == Evaluate(InitialState().pieces) == 0
  {
    InitialPieces();
    PlacementsMaterial();
  }

  lemma PlacementsMaterial()
    ensures ArmyPower(Placements(), White) == 139
    ensures ArmyPower(Placements(), Black) == 139
    ensures Evaluate(Placements()) == 0
  {
    PlacementsPower(White);
    PlacementsPower(Black);
    EvaluationIsPowerDifference(Placements());
  }

  lemma PlacementsPower(side: Side)
    ensures ArmyPower(Placements(), side) == 139
  {
    SetupSideMaterial(White, 0, 1);
    SetupSideMaterial(Black, 7, 6);
    HalvesPower(SetupSide(White, 0, 1), SetupSide(Black, 7, 6), side);
  }

  /** Two one-sided halves worth 139 each make 139 a side. */
  lemma HalvesPower(w: seq<Piece>, k: seq<Piece>, side: Side)
    requires ArmyPower(w, White) == 139 && ArmyPower(w, Black) == 0
    requires ArmyPower(k, Black) == 139 && ArmyPower(k, White) == 0
    ensures ArmyPower(w + k, side) == 139
  {
    ArmyPowerAppend(w, k, side);
  }

  /** The initial board holds an id exactly on ranks 0, 1, 6 and 7, and board and pieces agree. */
  lemma InitialConsistent()
    ensures forall s :: s in InitialState().board <==> OnBoard(s) && (s.rank <= 1 || s.rank >= 6)
    ensures Consistent(InitialState().board, InitialState().pieces)
  {
    BuiltBoard();
    InitialPieces();
    PlacementsBoard(InitialState().board);
  }

  /** Each placement's id is written on its square, and nothing else is written. */
  lemma BuiltBoard()
    ensures var b := InitialState().board;
      && (forall i | 0 <= i < |Placements()| ::
            Placements()[i].position in b && b[Placements()[i].position] == Placements()[i].id)
      && (forall s | s in b :: exists i | 0 <= i < |Placements()| :: Placements()[i].position == s)
  {
    PlacementsDistinct();
    BuiltFrom(Placements());
  }

  /** Writing pieces on distinct squares onto an empty board writes each id on its square and
      nothing else. */
  lemma BuiltFrom(adds: seq<Piece>)
    requires forall i, j | 0 <= i < j < |adds| :: adds[i].position != adds[j].position
    ensures var b := AddAll([], map[], adds).1;
      && (forall i | 0 <= i < |adds| :: adds[i].position in b && b[adds[i].position] == adds[i].id)
      && (forall s | s in b :: exists i | 0 <= i < |adds| :: adds[i].position == s)
  {
    AddAllBoard([], map[], adds);
  }

  lemma PlacementsBoard(b: Board)
    requires forall i | 0 <= i < |Placements()| ::
      Placements()[i].position in b && b[Placements()[i].position] == Placements()[i].id
    requires forall s | s in b :: exists i | 0 <= i < |Placements()| :: Placements()[i].position == s
    ensures forall s :: s in b <==> OnBoard(s) && (s.rank <= 1 || s.rank >= 6)
    ensures Consistent(b, Placements())
  {
    PlacementsDistinct();
    PlacementsSquares(b);
    PlacementIds();
    BuiltConsistent(Placements(), b);
  }

  /** Every placement stands on the board under a non-empty id. */
  lemma PlacementIds()
    ensures forall p | p in Placements() :: p.id != "" && OnBoard(p.position)
  {
    PlacementsLayout();
    forall p | p in Placements() ensures p.id != "" {
      assert |p.id| >= 3 by {
        PieceIdDigits(p.kind, p.side, p.position.rank, p.position.file);
      }
    }
  }

  lemma PlacementsSquares(b: Board)
    requires forall i | 0 <= i < |Placements()| :: Placements()[i].position in b
    requires forall s | s in b :: exists i | 0 <= i < |Placements()| :: Placements()[i].position == s
    ensures forall s :: s in b <==> OnBoard(s) && (s.rank <= 1 || s.rank >= 6)
  {
    forall i | 0 <= i < 32 ensures |Placements()| == 32 && Placements()[i].position == SlotSquare(i) {
      PlacementPosition(i);
    }
    SlotSquares(Placements(), b);
  }

  /** The square of slot `i`: blocks of eight along ranks 0, 1, 7 and 6, file by file. */
  function SlotSquare(i: int): (s: Square)
    requires 0 <= i < 32
    ensures OnBoard(s) && (s.rank <= 1 || s.rank >= 6)
  {
    if i < 8 then Square(0, i) else if i < 16 then Square(1, i - 8)
    else if i < 24 then Square(7, i - 16) else Square(6, i - 24)
  }

  /** The slot of a square of the four starting ranks. */
  function SlotOf(s: Square): (i: int)
    requires OnBoard(s) && (s.rank <= 1 || s.rank >= 6)
    ensures 0 <= i < 32 && SlotSquare(i) == s
  {
    if s.rank == 0 then s.file else if s.rank == 1 then 8 + s.file
    else if s.rank == 7 then 16 + s.file else 24 + s.file
  }

  lemma PlacementPosition(i: int)
    requires 0 <= i < 32
    ensures |Placements()| == 32 && Placements()[i].position == SlotSquare(i)
    ensures Placements()[i].id == IdAt(Placements()[i])
  {
    PlacementSlot(i);
  }

  /** Pieces standing one on each slot square, all written on a board that holds nothing else, fill
      exactly the four starting ranks. */
  lemma SlotSquares(ps: seq<Piece>, b: Board)
    requires |ps| == 32 && forall i | 0 <= i < 32 :: ps[i].position == SlotSquare(i)
    requires forall i | 0 <= i < |ps| :: ps[i].position in b
    requires forall s | s in b :: exists i | 0 <= i < |ps| :: ps[i].position == s
    ensures forall s :: s in b <==> OnBoard(s) && (s.rank <= 1 || s.rank >= 6)
  {
    forall s | OnBoard(s) && (s.rank <= 1 || s.rank >= 6) ensures s in b {
      assert ps[SlotOf(s)].position == s;
    }
  }

  /** A board written from a list of pieces with distinct ids, each standing on its own square on the
      board, agrees with that list. */
  lemma BuiltConsistent(ps: seq<Piece>, b: Board)
    requires DistinctIds(ps)
    requires forall p | p in ps :: p.id != "" && OnBoard(p.position)
    requires forall i | 0 <= i < |ps| :: ps[i].position in b && b[ps[i].position] == ps[i].id
    requires forall s | s in b :: exists i | 0 <= i < |ps| :: ps[i].position == s
    ensures Consistent(b, ps)
  {
    forall p | p in ps ensures p.position in b && b[p.position] == p.id {
      var i :| 0 <= i < |ps| && ps[i] == p;
    }
    forall s | s in b ensures Lookup(ps, b[s]).Some? && Lookup(ps, b[s]).value.position == s {
      var i :| 0 <= i < |ps| && ps[i].position == s;
      LookupMember(ps, ps[i]);
    }
  }
}
