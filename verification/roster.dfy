/** The piece map, `Record<string, ChessPiece>`, as the engine uses it.

    A JavaScript object with string keys enumerates its values in insertion order, so the map is
    modelled as the sequence of its values in that order, keyed by each piece's `id`:
    `Object.values(pieces)` is the sequence itself, `delete pieces[id]` filters the key out, and
    `pieces[id] = p` overwrites the entry in place when the key is present and appends otherwise. */
module Roster {
  import opened Types

  /** The keys of the map. */
  function Ids(ps: seq<Piece>): set<PieceId> {
    set p | p in ps :: p.id
  }

  /** A record holds each key once. */
  predicate DistinctIds(ps: seq<Piece>) {
    forall i, j | 0 <= i < j < |ps| :: ps[i].id != ps[j].id
  }

  /** `Object.values(pieces).find(p => p.position equals s)`: the first piece standing on `s`. */
  function Occupant(ps: seq<Piece>, s: Square): (r: Option<Piece>)
    ensures r.Some? ==> r.value in ps && r.value.position == s
    ensures r.None? ==> forall p | p in ps :: p.position != s
  {
    if |ps| == 0 then None
    else if ps[0].position == s then Some(ps[0])
    else Occupant(ps[1..], s)
  }

  /** `find` stops at the first match: no piece before the one found stands on `s`. */
  lemma {:induction false} OccupantFirst(ps: seq<Piece>, s: Square)
    ensures Occupant(ps, s).Some? ==> exists i | 0 <= i < |ps| ::
      ps[i] == Occupant(ps, s).value && forall j | 0 <= j < i :: ps[j].position != s
  {
    if |ps| > 0 && ps[0].position != s && Occupant(ps, s).Some? {
      OccupantFirst(ps[1..], s);
      var k :| 0 <= k < |ps[1..]| && ps[1..][k] == Occupant(ps, s).value
        && forall j | 0 <= j < k :: ps[1..][j].position != s;
      assert ps[k + 1] == Occupant(ps, s).value;
      forall j | 0 <= j < k + 1 ensures ps[j].position != s {
        if j > 0 { assert ps[j] == ps[1..][j - 1]; }
      }
    }
  }

  /** `pieces[id]`: the value stored under `id`, or undefined. */
  function Lookup(ps: seq<Piece>, id: PieceId): (r: Option<Piece>)
    ensures r.Some? ==> r.value in ps && r.value.id == id
    ensures r.None? <==> id !in Ids(ps)
  {
    if |ps| == 0 then None
    else if ps[0].id == id then Some(ps[0])
    else
      assert forall p | p in ps[1..] :: p in ps;
      Lookup(ps[1..], id)
  }

  /** `delete pieces[id]`. */
  function Remove(ps: seq<Piece>, id: PieceId): (r: seq<Piece>)
    ensures forall p :: p in r <==> p in ps && p.id != id
  {
    if |ps| == 0 then []
    else if ps[0].id == id then Remove(ps[1..], id)
    else [ps[0]] + Remove(ps[1..], id)
  }

  lemma {:induction false} RemoveDistinct(ps: seq<Piece>, id: PieceId)
    requires DistinctIds(ps)
    ensures DistinctIds(Remove(ps, id))
  {
    if |ps| > 0 {
      DistinctTail(ps);
      RemoveDistinct(ps[1..], id);
      if ps[0].id != id {
        assert ps[0].id !in Ids(Remove(ps[1..], id)) by {
          forall q | q in Remove(ps[1..], id) ensures q.id != ps[0].id {
            var j :| 0 <= j < |ps[1..]| && ps[1..][j] == q;
            assert ps[j + 1] == q;
          }
        }
        DistinctPrepend(ps[0], Remove(ps[1..], id));
      }
    }
  }

  lemma DistinctTail(ps: seq<Piece>)
    requires DistinctIds(ps) && |ps| > 0
    ensures DistinctIds(ps[1..])
  {
    forall i, j | 0 <= i < j < |ps[1..]| ensures ps[1..][i].id != ps[1..][j].id {
      assert ps[1..][i] == ps[i + 1] && ps[1..][j] == ps[j + 1];
    }
  }

  /** The entry keyed `p.id` overwritten in place by `p`. */
  function Replace(ps: seq<Piece>, p: Piece): (r: seq<Piece>)
    ensures |r| == |ps|
    ensures forall i | 0 <= i < |ps| :: r[i] == if ps[i].id == p.id then p else ps[i]
  {
    if |ps| == 0 then []
    else [if ps[0].id == p.id then p else ps[0]] + Replace(ps[1..], p)
  }

  /** `pieces[p.id] = p`: a present key keeps its place, a new key goes last. */
  function Put(ps: seq<Piece>, p: Piece): (r: seq<Piece>)
    ensures forall q :: q in r <==> q == p || (q in ps && q.id != p.id)
    ensures p.id !in Ids(ps) ==> r == ps + [p]
    ensures p.id in Ids(ps) ==> |r| == |ps| && forall i | 0 <= i < |ps| :: r[i] == if ps[i].id == p.id then p else ps[i]
  {
    if p.id in Ids(ps) then
      var r := Replace(ps, p);
      assert forall q | q in ps && q.id != p.id :: q in r by {
        forall q | q in ps && q.id != p.id ensures q in r {
          var i :| 0 <= i < |ps| && ps[i] == q;
          assert r[i] == q;
        }
      }
      assert p in r by {
        var q :| q in ps && q.id == p.id;
        var i :| 0 <= i < |ps| && ps[i] == q;
        assert r[i] == p;
      }
      r
    else
      ps + [p]
  }

  lemma PutDistinct(ps: seq<Piece>, p: Piece)
    requires DistinctIds(ps)
    ensures DistinctIds(Put(ps, p))
  {
    if p.id !in Ids(ps) {
      DistinctAppend(ps, p);
    }
  }

  lemma DistinctPrepend(x: Piece, ps: seq<Piece>)
    requires DistinctIds(ps) && x.id !in Ids(ps)
    ensures DistinctIds([x] + ps)
  {
    var s := [x] + ps;
    forall i, j | 0 <= i < j < |s| ensures s[i].id != s[j].id {
      if i == 0 {
        assert s[j] in ps;
      } else {
        assert s[i] == ps[i - 1] && s[j] == ps[j - 1];
      }
    }
  }

  lemma DistinctAppend(ps: seq<Piece>, x: Piece)
    requires DistinctIds(ps) && x.id !in Ids(ps)
    ensures DistinctIds(ps + [x])
  {
    var s := ps + [x];
    forall i, j | 0 <= i < j < |s| ensures s[i].id != s[j].id {
      if j == |ps| {
        assert s[i] in ps;
      } else {
        assert s[i] == ps[i] && s[j] == ps[j];
      }
    }
  }

  /** In a record, a value is found under its own key. */
  lemma {:induction false} LookupMember(ps: seq<Piece>, p: Piece)
    requires DistinctIds(ps) && p in ps
    ensures Lookup(ps, p.id) == Some(p)
  {
    if ps[0] != p {
      assert ps[0].id != p.id by {
        var j :| 0 <= j < |ps| && ps[j] == p;
        assert j != 0;
      }
      DistinctTail(ps);
      assert p in ps[1..];
      LookupMember(ps[1..], p);
    }
  }

  /** After `delete pieces[id]`, the key `id` is gone and every other key reads as before. */
  lemma {:induction false} LookupRemove(ps: seq<Piece>, id: PieceId, x: PieceId)
    ensures Lookup(Remove(ps, id), x) == if x == id then None else Lookup(ps, x)
  {
    if |ps| > 0 {
      LookupRemove(ps[1..], id, x);
    }
  }

  /** After `pieces[p.id] = p`, the key `p.id` reads `p` and every other key reads as before. */
  lemma {:induction false} LookupPut(ps: seq<Piece>, p: Piece, x: PieceId)
    ensures Lookup(Put(ps, p), x) == if x == p.id then Some(p) else Lookup(ps, x)
  {
    if p.id in Ids(ps) {
      LookupReplace(ps, p, x);
    } else {
      LookupAppend(ps, p, x);
    }
  }

  lemma {:induction false} LookupReplace(ps: seq<Piece>, p: Piece, x: PieceId)
    requires p.id in Ids(ps)
    ensures Lookup(Replace(ps, p), x) == if x == p.id then Some(p) else Lookup(ps, x)
  {
    if x == p.id {
      LookupReplaceSame(ps, p);
    } else {
      LookupReplaceOther(ps, p, x);
    }
  }

  lemma {:induction false} LookupReplaceSame(ps: seq<Piece>, p: Piece)
    requires p.id in Ids(ps)
    ensures Lookup(Replace(ps, p), p.id) == Some(p)
  {
    var r := Replace(ps, p);
    assert r[1..] == Replace(ps[1..], p);
    if ps[0].id != p.id {
      assert p.id in Ids(ps[1..]) by {
        var q :| q in ps && q.id == p.id;
        assert q in ps[1..];
      }
      LookupReplaceSame(ps[1..], p);
    }
  }

  lemma {:induction false} LookupReplaceOther(ps: seq<Piece>, p: Piece, x: PieceId)
    requires x != p.id
    ensures Lookup(Replace(ps, p), x) == Lookup(ps, x)
  {
    if |ps| > 0 {
      var r := Replace(ps, p);
      assert r[1..] == Replace(ps[1..], p);
      LookupReplaceOther(ps[1..], p, x);
    }
  }

  lemma {:induction false} LookupAppend(ps: seq<Piece>, p: Piece, x: PieceId)
    requires p.id !in Ids(ps)
    ensures Lookup(ps + [p], x) == if x == p.id then Some(p) else Lookup(ps, x)
  {
    if |ps| == 0 {
      assert ps + [p] == [p];
    } else {
      assert (ps + [p])[1..] == ps[1..] + [p];
      assert p.id !in Ids(ps[1..]) by {
        assert forall q | q in ps[1..] :: q in ps;
      }
      LookupAppend(ps[1..], p, x);
    }
  }

  /** The pieces of one side, in map order (`Object.values(pieces).filter(p => p.side === side)`). */
  function OfSide(ps: seq<Piece>, side: Side): (r: seq<Piece>)
    ensures |r| <= |ps|
    ensures forall p :: p in r <==> p in ps && p.side == side
  {
    if |ps| == 0 then []
    else
      assert ps == [ps[0]] + ps[1..];
      (if ps[0].side == side then [ps[0]] else []) + OfSide(ps[1..], side)
  }

  lemma {:induction false} OfSideAppend(a: seq<Piece>, b: seq<Piece>, side: Side)
    ensures OfSide(a + b, side) == OfSide(a, side) + OfSide(b, side)
  {
    if |a| > 0 {
      assert (a + b)[1..] == a[1..] + b;
      OfSideAppend(a[1..], b, side);
    } else {
      assert a + b == b;
    }
  }
}
