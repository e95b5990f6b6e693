/** One turn of the self-playing agent (`getAIMove`).

    A side driven by the remote advisor plays the advisor's suggestion, unvalidated, when there is
    one. Otherwise the local policy lists every generated move of every piece of the side to move,
    reading the board at each destination to see what it would capture; with probability 0.6 it
    picks uniformly among the captures (when there are any) and otherwise uniformly among all
    moves. With no move at all the game is declared drawn. The two random draws are the oracles
    `preferCapture` (the draw exceeded 0.4) and `pick` (the index, taken modulo the list length). */
module Selection {
  import opened Types
  import opened Roster
  import opened MoveGen
  import opened BoardState
  import opened Transition

  /** An entry of `possibleMoves`: where from, where to, and the id the board names there. */
  datatype Candidate = Candidate(from: Square, to: Square, target: Option<PieceId>)

  /** The entries for one piece: each generated square with the board read at it, in order. The
      first square whose row does not exist crashes the turn. */
  function PieceCandidates(b: Board, from: Square, moves: seq<Square>): (r: Result<seq<Candidate>>)
    ensures r.Crash? <==> exists t | t in moves :: !RowExists(t.rank)
    ensures r.Ok? ==> |r.value| == |moves|
    ensures r.Ok? ==> forall i | 0 <= i < |moves| ::
      r.value[i] == Candidate(from, moves[i], TargetAt(b, moves[i]))
  {
    if |moves| == 0 then Ok([])
    else
      assert moves == [moves[0]] + moves[1..];
      match CellAt(b, moves[0])
      case Crash(f) => Crash(f)
      case Ok(t) =>
        match PieceCandidates(b, from, moves[1..])
        case Crash(f) => Crash(f)
        case Ok(rest) => Ok([Candidate(from, moves[0], t)] + rest)
  }

  /** `flatMap` of the per-piece entries over `army`, with moves generated against the map `ps`. */
  function ArmyCandidates(b: Board, army: seq<Piece>, ps: seq<Piece>): (r: Result<seq<Candidate>>)
    ensures r.Crash? <==> exists p, t | p in army && t in ValidMoves(p, ps) :: !RowExists(t.rank)
  {
    if |army| == 0 then Ok([])
    else
      assert army == [army[0]] + army[1..];
      match PieceCandidates(b, army[0].position, ValidMoves(army[0], ps))
      case Crash(f) => Crash(f)
      case Ok(first) =>
        match ArmyCandidates(b, army[1..], ps)
        case Crash(f) => Crash(f)
        case Ok(rest) => Ok(first + rest)
  }

  /** `possibleMoves` for the side to move. */
  function LocalCandidates(s: GameState): Result<seq<Candidate>> {
    ArmyCandidates(s.board, OfSide(s.pieces, s.turn), s.pieces)
  }

  /** `possibleMoves.filter(m => m.target)`. */
  function Captures(cs: seq<Candidate>): (r: seq<Candidate>)
    ensures |r| <= |cs|
    ensures forall c :: c in r <==> c in cs && c.target.Some?
  {
    if |cs| == 0 then []
    else
      assert cs == [cs[0]] + cs[1..];
      (if cs[0].target.Some? then [cs[0]] else []) + Captures(cs[1..])
  }

  /** The local choice: none when there are no entries; a capture when there is one and the first
      draw prefers it; otherwise any entry. */
  function Choose(cs: seq<Candidate>, preferCapture: bool, pick: nat): (r: Option<(Square, Square)>)
    ensures r.None? <==> |cs| == 0
    ensures r.Some? ==> exists c | c in cs :: r.value == (c.from, c.to)
    ensures r.Some? && preferCapture && |Captures(cs)| > 0 ==>
      exists c | c in cs :: r.value == (c.from, c.to) && c.target.Some?
  {
    if |cs| == 0 then None
    else
      var caps := Captures(cs);
      if |caps| > 0 && preferCapture then
        var c := Pick(caps, pick);
        Some((c.from, c.to))
      else
        var c := Pick(cs, pick);
        Some((c.from, c.to))
  }

  /** `list[Math.floor(random * list.length)]`, the draw given as an index taken modulo the length. */
  function Pick(cs: seq<Candidate>, pick: nat): (c: Candidate)
    requires |cs| > 0
    ensures c in cs
  {
    cs[pick % |cs|]
  }

  /** A draw below the length picks that very entry. */
  lemma PickIndex(cs: seq<Candidate>, i: nat)
    requires i < |cs|
    ensures Pick(cs, i) == cs[i]
  {
    assert i % |cs| == i;
  }

  /** The advisor's suggestion, when the side to move consults the advisor. */
  function Advice(s: GameState, whiteStrategy: AIStrategy, blackStrategy: AIStrategy,
                  suggestion: Option<(Square, Square)>): Option<(Square, Square)> {
    var strategy := if s.turn == White then whiteStrategy else blackStrategy;
    if strategy == Gemini then suggestion else None
  }

  /** `getAIMove` followed by the state update it triggers, for the strategies of the two sides,
      the advisor's suggestion (consulted only for a side set to `Gemini`), the two random draws
      and the clock reading. */
  function AgentTurn(s: GameState, whiteStrategy: AIStrategy, blackStrategy: AIStrategy,
                     suggestion: Option<(Square, Square)>, preferCapture: bool, pick: nat,
                     timestamp: int): (r: Result<GameState>)
    ensures s.isGameOver ==> r == Ok(s)
  {
    if s.isGameOver then Ok(s)
    else
      match Advice(s, whiteStrategy, blackStrategy, suggestion)
      case Some(m) => MakeMove(s, m.0, m.1, timestamp)
      case None =>
        match LocalCandidates(s)
        case Crash(f) => Crash(f)
        case Ok(cs) =>
          match Choose(cs, preferCapture, pick)
          case None => Ok(DeclareDraw(s))
          case Some(m) => MakeMove(s, m.0, m.1, timestamp)
  }

  /** An entry is listed exactly when it pairs a piece of the army with one of its generated squares
      and the board's reading of that square. */
  lemma {:induction false} ArmyCandidatesExactly(b: Board, army: seq<Piece>, ps: seq<Piece>)
    requires ArmyCandidates(b, army, ps).Ok?
    ensures forall c :: c in ArmyCandidates(b, army, ps).value <==>
      exists p | p in army :: c.from == p.position && c.to in ValidMoves(p, ps) && c.target == TargetAt(b, c.to)
  {
    if |army| > 0 {
      var moves := ValidMoves(army[0], ps);
      var first := PieceCandidates(b, army[0].position, moves).value;
      ArmyCandidatesExactly(b, army[1..], ps);
      assert army == [army[0]] + army[1..];
      forall c ensures c in first <==>
        c.from == army[0].position && c.to in moves && c.target == TargetAt(b, c.to)
      {
        if c.from == army[0].position && c.to in moves && c.target == TargetAt(b, c.to) {
          var i :| 0 <= i < |moves| && moves[i] == c.to;
          assert first[i] == c;
        }
      }
    }
  }

  /** The local policy's entries: every generated move of every piece of the side to move, each with
      the id the board names on its destination. */
  lemma LocalCandidatesExactly(s: GameState)
    requires LocalCandidates(s).Ok?
    ensures forall c :: c in LocalCandidates(s).value <==>
      exists p | p in s.pieces && p.side == s.turn ::
        c.from == p.position && c.to in ValidMoves(p, s.pieces) && c.target == TargetAt(s.board, c.to)
  {
    ArmyCandidatesExactly(s.board, OfSide(s.pieces, s.turn), s.pieces);
  }

  /** Every entry can be the one chosen when the first draw does not prefer captures. */
  lemma ChooseAnyEntry(cs: seq<Candidate>, c: Candidate)
    requires c in cs
    ensures exists pick: nat :: Choose(cs, false, pick) == Some((c.from, c.to))
  {
    var i :| 0 <= i < |cs| && cs[i] == c;
    PickIndex(cs, i);
    assert Choose(cs, false, i) == Some((c.from, c.to));
  }

  /** Every capture can be the one chosen when the first draw prefers captures. */
  lemma ChooseAnyCapture(cs: seq<Candidate>, c: Candidate)
    requires c in cs && c.target.Some?
    ensures exists pick: nat :: Choose(cs, true, pick) == Some((c.from, c.to))
  {
    var caps := Captures(cs);
    assert c in caps;
    var i :| 0 <= i < |caps| && caps[i] == c;
    PickIndex(caps, i);
    assert |cs| > 0;
    assert Choose(cs, true, i) == Some((c.from, c.to));
  }

  /** Without captures the first draw makes no difference. */
  lemma ChooseWithoutCaptures(cs: seq<Candidate>, pick: nat)
    requires forall c | c in cs :: c.target.None?
    ensures Choose(cs, true, pick) == Choose(cs, false, pick)
  {
    if |Captures(cs)| > 0 {
      assert Captures(cs)[0] in Captures(cs);
    }
  }
}
