/** Material counting: the signed evaluation (`calculateEvaluation`) and the per-side army power
    (`getArmyPower`). Both use one table: pawn 1, knight 3, bishop 3, rook 5, queen 9, king 100. */
module Evaluation {
  import opened Types
  import opened Roster

  function Value(kind: PieceType): nat {
    match kind
    case Pawn => 1
    case Knight => 3
    case Bishop => 3
    case Rook => 5
    case Queen => 9
    case King => 100
  }

  /** A piece's contribution to the evaluation: positive for white, negative for black. */
  function Signed(p: Piece): int {
    (if p.side == White then 1 else -1) * Value(p.kind)
  }

  /** `calculateEvaluation(pieces)`: the signed sum over every piece in the map. */
  function Evaluate(ps: seq<Piece>): int {
    if |ps| == 0 then 0 else Signed(ps[0]) + Evaluate(ps[1..])
  }

  /** `getArmyPower(side)`: the summed value of the pieces of one side. */
  function ArmyPower(ps: seq<Piece>, side: Side): nat {
    if |ps| == 0 then 0
    else (if ps[0].side == side then Value(ps[0].kind) else 0) + ArmyPower(ps[1..], side)
  }

  /** The evaluation is white's army power minus black's. */
  lemma {:induction false} EvaluationIsPowerDifference(ps: seq<Piece>)
    ensures Evaluate(ps) == ArmyPower(ps, White) - ArmyPower(ps, Black)
  {
    if |ps| > 0 {
      EvaluationIsPowerDifference(ps[1..]);
    }
  }

  lemma {:induction false} ArmyPowerAppend(a: seq<Piece>, b: seq<Piece>, side: Side)
    ensures ArmyPower(a + b, side) == ArmyPower(a, side) + ArmyPower(b, side)
  {
    if |a| > 0 {
      assert (a + b)[1..] == a[1..] + b;
      ArmyPowerAppend(a[1..], b, side);
    } else {
      assert a + b == b;
    }
  }

  /** The contribution of the piece stored under `id`, or nothing when there is none. */
  function Stake(ps: seq<Piece>, id: PieceId): int {
    match Lookup(ps, id)
    case Some(p) => Signed(p)
    case None => 0
  }

  /** Deleting a key takes exactly that piece's contribution out of the evaluation. */
  lemma {:induction false} EvaluateRemove(ps: seq<Piece>, id: PieceId)
    requires DistinctIds(ps)
    ensures Evaluate(Remove(ps, id)) == Evaluate(ps) - Stake(ps, id)
  {
    if |ps| > 0 {
      DistinctTail(ps);
      EvaluateRemove(ps[1..], id);
      if ps[0].id == id {
        assert id !in Ids(ps[1..]) by {
          forall q | q in ps[1..] ensures q.id != id {
            var j :| 0 <= j < |ps[1..]| && ps[1..][j] == q;
            assert ps[j + 1] == q;
          }
        }
        assert Lookup(ps[1..], id).None?;
      }
    }
  }

  lemma {:induction false} ReplaceAbsent(ps: seq<Piece>, p: Piece)
    requires p.id !in Ids(ps)
    ensures Replace(ps, p) == ps
  {
    if |ps| > 0 {
      assert p.id !in Ids(ps[1..]) by {
        assert forall q | q in ps[1..] :: q in ps;
      }
      ReplaceAbsent(ps[1..], p);
    }
  }

  /** Storing a piece under its key swaps the old contribution for the new one. */
  lemma {:induction false} EvaluatePut(ps: seq<Piece>, p: Piece)
    requires DistinctIds(ps)
    ensures Evaluate(Put(ps, p)) == Evaluate(ps) - Stake(ps, p.id) + Signed(p)
  {
    if p.id in Ids(ps) {
      EvaluateReplace(ps, p);
    } else {
      EvaluateAppend(ps, [p]);
      assert Lookup(ps, p.id).None?;
    }
  }

  lemma {:induction false} EvaluateAppend(a: seq<Piece>, b: seq<Piece>)
    ensures Evaluate(a + b) == Evaluate(a) + Evaluate(b)
  {
    if |a| > 0 {
      assert (a + b)[1..] == a[1..] + b;
      EvaluateAppend(a[1..], b);
    } else {
      assert a + b == b;
    }
  }

  lemma {:induction false} EvaluateReplace(ps: seq<Piece>, p: Piece)
    requires DistinctIds(ps) && p.id in Ids(ps)
    ensures Evaluate(Replace(ps, p)) == Evaluate(ps) - Stake(ps, p.id) + Signed(p)
  {
    var r := Replace(ps, p);
    assert r[1..] == Replace(ps[1..], p);
    DistinctTail(ps);
    if ps[0].id == p.id {
      assert p.id !in Ids(ps[1..]) by {
        forall q | q in ps[1..] ensures q.id != p.id {
          var j :| 0 <= j < |ps[1..]| && ps[1..][j] == q;
          assert ps[j + 1] == q;
        }
      }
      ReplaceAbsent(ps[1..], p);
    } else {
      assert p.id in Ids(ps[1..]) by {
        var q :| q in ps && q.id == p.id;
        assert q in ps[1..];
      }
      EvaluateReplace(ps[1..], p);
    }
  }
}
