/** The game as a sequence of agent turns from the starting position, and what every position it
    reaches satisfies. */
module Game {
  import opened Types
  import opened Roster
  import opened Evaluation
  import opened BoardState
  import opened MoveGen
  import opened MoveGenProps
  import opened Setup
  import opened Transition
  import opened Selection

  /** The rank a side's pawns start on. */
  function PawnHome(side: Side): int {
    if side == White then 1 else 6
  }

  /** A pawn that has never moved still stands on its starting rank. */
  predicate UnmovedPawnsHome(ps: seq<Piece>) {
    forall p | p in ps :: p.kind == Pawn && !p.hasMoved ==> p.position.rank == PawnHome(p.side)
  }

  /** What every position of a game satisfies. */
  predicate Sound(s: GameState) {
    WellFormed(s) && UnmovedPawnsHome(s.pieces)
  }

  lemma InitialSound()
    ensures Sound(InitialState())
  {
    InitialPieces();
    PlacementsLayout();
    InitialConsistent();
    InitialMaterial();
    StartSound(InitialState());
  }

  /** A consistent position whose pieces all stand where they start is sound. */
  lemma StartSound(s: GameState)
    requires Consistent(s.board, s.pieces) && s.evaluation == Evaluate(s.pieces)
    requires forall p | p in s.pieces :: StartingPlace(p)
    ensures Sound(s)
  {
    forall p | p in s.pieces && p.kind == Pawn && !p.hasMoved ensures p.position.rank == PawnHome(p.side) {
      assert StartingPlace(p);
    }
  }

  /** A move between squares of the board keeps a position sound. */
  lemma MakeMoveSound(prev: GameState, from: Square, to: Square, timestamp: int)
    requires Sound(prev) && OnBoard(from) && OnBoard(to)
    ensures MakeMove(prev, from, to, timestamp).Ok?
    ensures Sound(MakeMove(prev, from, to, timestamp).value)
  {
    MakeMoveWellFormed(prev, from, to, timestamp);
    if Occupied(prev.board, from) {
      var b := prev.board;
      var ps := prev.pieces;
      ConsistentCells(b, ps, from, b[from]);
      var moved := Lookup(ps, b[from]).value.(position := to, hasMoved := true);
      MakeMoveResult(prev, from, to, timestamp);
      var np := MakeMove(prev, from, to, timestamp).value.pieces;
      assert np == PiecesAfter(ps, TargetAt(b, to), moved);
      assert forall p | p in np :: p == moved || p in ps;
    }
  }

  /** The move the local policy picks on a consistent position is a generated move of a piece of
      the side to move, between two squares of the board. */
  lemma LocalChoice(s: GameState, cs: seq<Candidate>, preferCapture: bool, pick: nat)
    requires Consistent(s.board, s.pieces)
    requires LocalCandidates(s) == Ok(cs) && Choose(cs, preferCapture, pick).Some?
    ensures var m := Choose(cs, preferCapture, pick).value;
      && OnBoard(m.0) && OnBoard(m.1) && Occupied(s.board, m.0)
      && Lookup(s.pieces, s.board[m.0]).Some?
      && Lookup(s.pieces, s.board[m.0]).value.side == s.turn
      && m.1 in ValidMoves(Lookup(s.pieces, s.board[m.0]).value, s.pieces)
  {
    var m := Choose(cs, preferCapture, pick).value;
    var c :| c in cs && m == (c.from, c.to);
    LocalCandidatesExactly(s);
    var p :| p in s.pieces && p.side == s.turn && c.from == p.position && c.to in ValidMoves(p, s.pieces)
      && c.target == TargetAt(s.board, c.to);
    LookupMember(s.pieces, p);
    ConsistentCells(s.board, s.pieces, p.position, p.id);
    ValidMovesOnFiles(p, s.pieces);
    assert !(exists q, t | q in OfSide(s.pieces, s.turn) && t in ValidMoves(q, s.pieces) :: !RowExists(t.rank));
    assert p in OfSide(s.pieces, s.turn);
  }

  /** On a sound position, a generated square off the ranks comes only from a pawn standing on its
      last rank. */
  lemma OffRankMoves(p: Piece, ps: seq<Piece>)
    requires UnmovedPawnsHome(ps) && p in ps && OnBoard(p.position)
    requires forall q | q in ps :: OnBoard(q.position)
    ensures (exists t | t in ValidMoves(p, ps) :: !RowExists(t.rank)) <==>
      p.kind == Pawn && p.position.rank == LastRank(p.side)
  {
    ValidMovesSound(p, ps);
    if p.kind == Pawn {
      PawnMovesExactly(ps, p);
      PawnTargets(ps, p);
      if p.position.rank == LastRank(p.side) {
        PawnStepsOffBoard(ps, p);
      } else {
        var r := p.position.rank;
        var f := p.position.file;
        var dir := Forward(p.side);
        forall t | t in ValidMoves(p, ps) ensures RowExists(t.rank) {
          assert PawnRule(ps, p, t);
          if t == Square(r + 2 * dir, f) && !p.hasMoved {
            assert r == PawnHome(p.side);
          }
        }
      }
    }
  }

  /** On a sound position a running turn crashes in two ways only. A followed suggestion crashes
      when its source row is missing, or when its source names a piece and its destination row is
      missing. The local policy crashes when a pawn of the side to move stands on its last rank: its
      unchecked step reads a row the board does not have. */
  lemma AgentTurnCrash(s: GameState, whiteStrategy: AIStrategy, blackStrategy: AIStrategy,
                       suggestion: Option<(Square, Square)>, preferCapture: bool, pick: nat, timestamp: int)
    requires Sound(s)
    ensures AgentTurn(s, whiteStrategy, blackStrategy, suggestion, preferCapture, pick, timestamp).Crash? <==>
      && !s.isGameOver
      && match Advice(s, whiteStrategy, blackStrategy, suggestion)
         case Some(m) => !RowExists(m.0.rank) || (Occupied(s.board, m.0) && !RowExists(m.1.rank))
         case None => exists p | p in s.pieces :: p.side == s.turn && p.kind == Pawn && p.position.rank == LastRank(p.side)
  {
    var r := AgentTurn(s, whiteStrategy, blackStrategy, suggestion, preferCapture, pick, timestamp);
    var advice := Advice(s, whiteStrategy, blackStrategy, suggestion);
    if !s.isGameOver {
      if advice.Some? {
        var m := advice.value;
        MakeMoveFaults(s, m.0, m.1, timestamp);
        if Occupied(s.board, m.0) {
          assert Lookup(s.pieces, s.board[m.0]).Some?;
          if Occupied(s.board, m.1) {
            assert Lookup(s.pieces, s.board[m.1]).Some?;
          }
        }
      } else {
        var army := OfSide(s.pieces, s.turn);
        forall p | p in army
          ensures (exists t | t in ValidMoves(p, s.pieces) :: !RowExists(t.rank)) <==>
            p.kind == Pawn && p.position.rank == LastRank(p.side)
        {
          OffRankMoves(p, s.pieces);
        }
        if LocalCandidates(s).Ok? {
          var cs := LocalCandidates(s).value;
          if Choose(cs, preferCapture, pick).Some? {
            LocalChoice(s, cs, preferCapture, pick);
            var m := Choose(cs, preferCapture, pick).value;
            MakeMoveWellFormed(s, m.0, m.1, timestamp);
          }
        }
      }
    }
  }

  /** A turn that goes through from a sound position leads to a sound position, provided a
      suggestion names a destination on the board (`OffBoardSuggestion` shows why). */
  lemma AgentTurnSound(s: GameState, whiteStrategy: AIStrategy, blackStrategy: AIStrategy,
                       suggestion: Option<(Square, Square)>, preferCapture: bool, pick: nat, timestamp: int)
    requires Sound(s)
    requires suggestion.Some? ==> OnBoard(suggestion.value.1)
    requires AgentTurn(s, whiteStrategy, blackStrategy, suggestion, preferCapture, pick, timestamp).Ok?
    ensures Sound(AgentTurn(s, whiteStrategy, blackStrategy, suggestion, preferCapture, pick, timestamp).value)
  {
    var advice := Advice(s, whiteStrategy, blackStrategy, suggestion);
    if !s.isGameOver {
      if advice.Some? {
        var m := advice.value;
        MakeMoveFaults(s, m.0, m.1, timestamp);
        if Occupied(s.board, m.0) {
          ConsistentSquares(s.board, s.pieces);
          MakeMoveSound(s, m.0, m.1, timestamp);
        }
      } else {
        var cs := LocalCandidates(s).value;
        if Choose(cs, preferCapture, pick).Some? {
          LocalChoice(s, cs, preferCapture, pick);
          var m := Choose(cs, preferCapture, pick).value;
          MakeMoveSound(s, m.0, m.1, timestamp);
        }
      }
    }
  }

  /** A piece sent off the board goes through exactly when the destination's row exists, and the
      piece is then stored on a square the board does not have, so board and map disagree. */
  lemma OffBoardDestination(prev: GameState, from: Square, to: Square, timestamp: int)
    requires Consistent(prev.board, prev.pieces) && Occupied(prev.board, from) && !OnBoard(to)
    ensures MakeMove(prev, from, to, timestamp).Ok? <==> RowExists(to.rank)
    ensures MakeMove(prev, from, to, timestamp).Ok? ==>
      !Consistent(MakeMove(prev, from, to, timestamp).value.board, MakeMove(prev, from, to, timestamp).value.pieces)
  {
    ConsistentSquares(prev.board, prev.pieces);
    assert Lookup(prev.pieces, prev.board[from]).Some?;
    MakeMoveFaults(prev, from, to, timestamp);
    if MakeMove(prev, from, to, timestamp).Ok? {
      MakeMoveEffects(prev, from, to, timestamp);
      var next := MakeMove(prev, from, to, timestamp).value;
      var moved := Lookup(next.pieces, prev.board[from]).value;
      assert moved in next.pieces && !OnBoard(moved.position);
    }
  }

  /** The advisor's answer is not validated: a suggestion that sends a piece of the board off it
      along an existing rank (to file 8, say) goes through and leaves an unsound position. */
  lemma OffBoardSuggestion(s: GameState, whiteStrategy: AIStrategy, blackStrategy: AIStrategy,
                           from: Square, to: Square, preferCapture: bool, pick: nat, timestamp: int)
    requires Sound(s) && !s.isGameOver
    requires (if s.turn == White then whiteStrategy else blackStrategy) == Gemini
    requires Occupied(s.board, from) && RowExists(to.rank) && !OnBoard(to)
    ensures var r := AgentTurn(s, whiteStrategy, blackStrategy, Some((from, to)), preferCapture, pick, timestamp);
      r.Ok? && !Sound(r.value)
  {
    OffBoardDestination(s, from, to, timestamp);
  }

  /** A turn ends the game in a draw exactly when the game was running, the side to move does not
      follow a suggestion, and the local policy finds no move at all; nothing else changes then. */
  lemma AgentTurnDraw(s: GameState, whiteStrategy: AIStrategy, blackStrategy: AIStrategy,
                      suggestion: Option<(Square, Square)>, preferCapture: bool, pick: nat, timestamp: int)
    requires !s.isGameOver
    ensures var r := AgentTurn(s, whiteStrategy, blackStrategy, suggestion, preferCapture, pick, timestamp);
      (r.Ok? && r.value.isGameOver && r.value.winner == Drawn) <==>
        Advice(s, whiteStrategy, blackStrategy, suggestion).None? && LocalCandidates(s) == Ok([])
    ensures Advice(s, whiteStrategy, blackStrategy, suggestion).None? && LocalCandidates(s) == Ok([]) ==>
      AgentTurn(s, whiteStrategy, blackStrategy, suggestion, preferCapture, pick, timestamp)
        == Ok(s.(isGameOver := true, winner := Drawn))
  {
    var advice := Advice(s, whiteStrategy, blackStrategy, suggestion);
    if advice.Some? {
      MoveNeverDraws(s, advice.value.0, advice.value.1, timestamp);
    } else if LocalCandidates(s).Ok? {
      var cs := LocalCandidates(s).value;
      if |cs| > 0 {
        var m := Choose(cs, preferCapture, pick).value;
        MoveNeverDraws(s, m.0, m.1, timestamp);
      }
    }
  }

  /** A move on a running game never records a draw. */
  lemma MoveNeverDraws(s: GameState, from: Square, to: Square, timestamp: int)
    requires !s.isGameOver
    ensures var r := MakeMove(s, from, to, timestamp);
      r.Ok? ==> !(r.value.isGameOver && r.value.winner == Drawn)
  {
  }

  /** The inputs of one turn that the source takes from outside: the advisor's answer, the two
      random draws and the clock. */
  datatype TurnInput = TurnInput(suggestion: Option<(Square, Square)>, preferCapture: bool, pick: nat, timestamp: int)

  /** A run of turns, stopping at the first crash. */
  function Play(s: GameState, whiteStrategy: AIStrategy, blackStrategy: AIStrategy, inputs: seq<TurnInput>): Result<GameState>
    decreases |inputs|
  {
    if |inputs| == 0 then Ok(s)
    else
      var i := inputs[0];
      match AgentTurn(s, whiteStrategy, blackStrategy, i.suggestion, i.preferCapture, i.pick, i.timestamp)
      case Crash(f) => Crash(f)
      case Ok(next) => Play(next, whiteStrategy, blackStrategy, inputs[1..])
  }

  /** Every suggestion names a destination on the board. */
  predicate OnBoardAdvice(inputs: seq<TurnInput>) {
    forall i | i in inputs :: i.suggestion.Some? ==> OnBoard(i.suggestion.value.1)
  }

  /** Every position a game reaches from a sound one, with suggested destinations on the board, is
      sound. */
  lemma {:induction false} PlaySound(s: GameState, whiteStrategy: AIStrategy, blackStrategy: AIStrategy, inputs: seq<TurnInput>)
    requires Sound(s) && OnBoardAdvice(inputs)
    requires Play(s, whiteStrategy, blackStrategy, inputs).Ok?
    ensures Sound(Play(s, whiteStrategy, blackStrategy, inputs).value)
    decreases |inputs|
  {
    if |inputs| > 0 {
      var i := inputs[0];
      assert i in inputs;
      AgentTurnSound(s, whiteStrategy, blackStrategy, i.suggestion, i.preferCapture, i.pick, i.timestamp);
      var next := AgentTurn(s, whiteStrategy, blackStrategy, i.suggestion, i.preferCapture, i.pick, i.timestamp).value;
      assert forall j | j in inputs[1..] :: j in inputs;
      PlaySound(next, whiteStrategy, blackStrategy, inputs[1..]);
    }
  }

  /** Every position of a game from the start, with suggested destinations on the board, is sound:
      board and piece map agree, the shown evaluation is the material balance, and unmoved pawns
      are home. */
  lemma GameSound(whiteStrategy: AIStrategy, blackStrategy: AIStrategy, inputs: seq<TurnInput>)
    requires OnBoardAdvice(inputs)
    requires Play(InitialState(), whiteStrategy, blackStrategy, inputs).Ok?
    ensures Sound(Play(InitialState(), whiteStrategy, blackStrategy, inputs).value)
  {
    InitialSound();
    PlaySound(InitialState(), whiteStrategy, blackStrategy, inputs);
  }

  /** Once the game is over, no further turn changes anything. */
  lemma {:induction false} GameOverStays(s: GameState, whiteStrategy: AIStrategy, blackStrategy: AIStrategy, inputs: seq<TurnInput>)
    requires s.isGameOver
    ensures Play(s, whiteStrategy, blackStrategy, inputs) == Ok(s)
    decreases |inputs|
  {
    if |inputs| > 0 {
      GameOverStays(s, whiteStrategy, blackStrategy, inputs[1..]);
    }
  }
}
