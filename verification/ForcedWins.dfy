/** What a search score says about the game itself. A forced win is told from the legal moves, where they lead
    and who has won; a score in the mate band names the length of the shortest one the depth can see, and the
    move played starts it.
 */
module ForcedWins {
  import opened Animals
  import opened States
  import opened Transition
  import opened MoveGeneration
  import opened Invariants
  import opened Evaluation
  import opened Minimax
  import opened SearchTree
  import opened Effects

  /** The player to move has won, or can force a won game within so many plies, all of them within the depth. */
  ghost predicate CanWin(s: State, plies: nat, depth: nat)
    decreases depth
  {
    && Shaped(s)
    && if s.terminal != Ongoing then WinsFor(s, s.sideToMove)
       else depth > 0 && plies > 0 && exists m :: m in LegalMoves(s) && IsLost(Next(s, m), plies - 1, depth - 1)
  }

  /** The player to move has lost, has no move left, or loses within so many plies whatever is played. */
  ghost predicate IsLost(s: State, plies: nat, depth: nat)
    decreases depth
  {
    && Shaped(s)
    && if s.terminal != Ongoing then WinsFor(s, s.sideToMove.Opposite())
       else if depth == 0 then false
       else if LegalMoves(s) == [] then true
       else plies > 0 && forall m :: m in LegalMoves(s) ==> CanWin(Next(s, m), plies - 1, depth - 1)
  }

  ghost predicate ShortestWin(s: State, plies: nat, depth: nat)
  {
    CanWin(s, plies, depth) && (plies > 0 ==> !CanWin(s, plies - 1, depth))
  }

  /** The longest the loser can hold out. */
  ghost predicate LongestLoss(s: State, plies: nat, depth: nat)
  {
    IsLost(s, plies, depth) && (plies > 0 ==> !IsLost(s, plies - 1, depth))
  }

  /** Every line of play ends within the depth. */
  ghost predicate Ends(s: State, depth: nat)
    decreases depth
  {
    && Shaped(s)
    && (s.terminal == Ongoing ==> depth > 0 && forall m :: m in LegalMoves(s) ==> Ends(Next(s, m), depth - 1))
  }

  /** Ongoing, drawn, or won by one of the two sides. */
  ghost predicate Decided(s: State)
  {
    s.terminal != Illegal && (s.terminal == Catch || s.terminal == Try ==> s.winner == 0 || s.winner == 1)
  }

  lemma NextIsDecided(s: State, m: Move)
    requires Shaped(s) && m in LegalMoves(s)
    ensures Shaped(Next(s, m)) && s.sideToMove == Next(s, m).sideToMove.Opposite() && Decided(Next(s, m))
  {
    hide LegalMoves, Apply, IsPseudoLegal;
    LegalMember(s, m);
    VerdictInWords(s, m, Next(s, m));
  }

  lemma ChildIsNode(root: State, s: State, ply: nat, m: Move)
    requires Node(root, s, ply) && Shaped(s) && m in LegalMoves(s)
    ensures Node(root, Next(s, m), ply + 1) && Decided(Next(s, m)) && Shaped(Next(s, m))
  {
    hide LegalMoves, Node, Next, Decided, Apply;
    NextIsDecided(s, m);
    assert Steps(s, m, Next(s, m));
    ChildNode(root, s, ply, m, Next(s, m));
  }

  lemma FinishedScore(s: State, ply: int)
    requires s.terminal != Ongoing && Decided(s)
    ensures TerminalScore(s, ply) ==
              if s.terminal == Draw then 0 else if WinsFor(s, s.sideToMove) then 1_000_000 - ply else -1_000_000 + ply
    ensures WinsFor(s, s.sideToMove.Opposite()) <==> s.terminal != Draw && !WinsFor(s, s.sideToMove)
    ensures WinsFor(s, s.sideToMove) ==> s.terminal != Draw
  {
    assert s.sideToMove.South? || s.sideToMove.North?;
  }

  /** What a move's value says of the position it leads to. */
  ghost predicate TellsForced(ev: Evaluator, s: State, m: Move, depth: nat, ply: nat, plies: nat)
    requires depth > 0
  {
    var v := MoveValue(ev, s, m, depth, ply);
    && -1_000_000 + ply < v < 1_000_000 - ply
    && (plies > 0 ==>
          && (v >= 1_000_000 - ply - plies <==> IsLost(Next(s, m), plies - 1, depth - 1))
          && (v <= -1_000_000 + ply + plies <==> CanWin(Next(s, m), plies - 1, depth - 1)))
  }

  /** Scores in the mate band are forced wins and losses, and the band tells their length. */
  lemma {:induction false} ScoreTellsForced(ev: Evaluator, root: State, s: State, depth: nat, ply: nat, plies: nat)
    requires Node(root, s, ply) && Decided(s) && plies <= 900_000
    ensures Value(ev, s, depth, ply) >= 1_000_000 - ply - plies <==> CanWin(s, plies, depth)
    ensures Value(ev, s, depth, ply) <= -1_000_000 + ply + plies <==> IsLost(s, plies, depth)
    decreases depth, 1
  {
    hide StaticScore, TerminalScore, LegalMoves, Lawful, Node, WinsFor, Decided, MoveValue, IsBest, TellsForced;
    NodeIsShaped(root, s, ply);
    if s.terminal != Ongoing {
      TerminalValue(ev, s, depth, ply);
      FinishedScore(s, ply);
    } else if depth == 0 {
      EvaluationBounds(ev, s);
    } else if LegalMoves(s) != [] {
      ValueIsBest(ev, s, depth, ply);
      forall m | m in LegalMoves(s)
        ensures TellsForced(ev, s, m, depth, ply, plies)
      {
        MoveTellsForced(ev, root, s, m, depth, ply, plies);
      }
      BestTellsForced(ev, s, LegalMoves(s), depth, ply, plies, Value(ev, s, depth, ply));
    }
  }

  lemma {:induction false} MoveTellsForced(ev: Evaluator, root: State, s: State, m: Move, depth: nat, ply: nat,
                                           plies: nat)
    requires Node(root, s, ply) && Shaped(s) && m in LegalMoves(s) && depth > 0 && plies <= 900_000
    ensures TellsForced(ev, s, m, depth, ply, plies)
    decreases depth, 0
  {
    hide Value, LegalMoves, Node, Decided, MoveValue, CanWin, IsLost, Next;
    ChildIsNode(root, s, ply, m);
    MoveValueIsNegated(ev, s, m, depth, ply);
    ValueBounds(ev, root, Next(s, m), depth - 1, ply + 1);
    if plies > 0 {
      ScoreTellsForced(ev, root, Next(s, m), depth - 1, ply + 1, plies - 1);
    }
  }

  /** The same for a maximum over moves. */
  lemma BestTellsForced(ev: Evaluator, s: State, moves: seq<Move>, depth: nat, ply: nat, plies: nat, v: int)
    requires depth > 0 && ply <= TURN_LIMIT && IsBest(ev, s, moves, depth, ply, v)
    requires forall m :: m in moves ==> TellsForced(ev, s, m, depth, ply, plies)
    ensures v >= 1_000_000 - ply - plies <==>
              plies > 0 && exists m :: m in moves && IsLost(Next(s, m), plies - 1, depth - 1)
    ensures v <= -1_000_000 + ply + plies <==>
              plies > 0 && forall m :: m in moves ==> CanWin(Next(s, m), plies - 1, depth - 1)
  {
    hide MoveValue, IsLost, CanWin, Next;
    var m :| m in moves && MoveValue(ev, s, m, depth, ply) == v;
  }

  // ---------------------------------------------------------------- every score as a game

  /** The player to move can secure a score: by the result, by the evaluation where the depth ends, or by a move
      after which the opponent cannot secure more than its negation. */
  ghost predicate Secures(ev: Evaluator, s: State, v: int, depth: nat, ply: nat)
    decreases depth
  {
    && Shaped(s)
    && if s.terminal == Draw then v <= 0
       else if s.terminal != Ongoing && WinsFor(s, s.sideToMove) then v <= 1_000_000 - ply
       else if s.terminal != Ongoing then v <= -1_000_000 + ply
       else if depth == 0 then v <= StaticScore(ev, s)
       else if LegalMoves(s) == [] then v <= -1_000_000 + ply
       else exists m :: m in LegalMoves(s) && !Secures(ev, Next(s, m), 1 - v, depth - 1, ply + 1)
  }

  /** The value of a position is the most its player can secure. */
  lemma {:induction false} ValueIsSecured(ev: Evaluator, s: State, v: int, depth: nat, ply: nat)
    requires Shaped(s)
    ensures Value(ev, s, depth, ply) >= v <==> Secures(ev, s, v, depth, ply)
    decreases depth, 1
  {
    hide StaticScore, LegalMoves, MoveValue, IsBest, Shaped, Next;
    if s.terminal != Ongoing {
      TerminalValue(ev, s, depth, ply);
      hide Value;
    } else if depth > 0 && LegalMoves(s) != [] {
      hide Value;
      ValueIsBest(ev, s, depth, ply);
      forall m | m in LegalMoves(s)
        ensures MoveValue(ev, s, m, depth, ply) >= v <==> !Secures(ev, Next(s, m), 1 - v, depth - 1, ply + 1)
      {
        MoveIsSecured(ev, s, m, v, depth, ply);
      }
      AtLeast(ev, s, LegalMoves(s), depth, ply, Value(ev, s, depth, ply), v);
    }
  }

  lemma {:induction false} MoveIsSecured(ev: Evaluator, s: State, m: Move, v: int, depth: nat, ply: nat)
    requires Shaped(s) && m in LegalMoves(s) && depth > 0
    ensures MoveValue(ev, s, m, depth, ply) >= v <==> !Secures(ev, Next(s, m), 1 - v, depth - 1, ply + 1)
    decreases depth, 0
  {
    hide Value, Secures, LegalMoves, Next, MoveValue, Shaped;
    NextIsDecided(s, m);
    MoveValueIsNegated(ev, s, m, depth, ply);
    ValueIsSecured(ev, Next(s, m), 1 - v, depth - 1, ply + 1);
  }

  lemma AtLeast(ev: Evaluator, s: State, moves: seq<Move>, depth: nat, ply: int, best: int, v: int)
    requires depth > 0 && IsBest(ev, s, moves, depth, ply, best)
    ensures best >= v <==> exists m :: m in moves && MoveValue(ev, s, m, depth, ply) >= v
  {
    hide MoveValue;
  }

  // ---------------------------------------------------------------- lines that end

  /** Where every line ends within the depth the score is a draw or a mate. */
  lemma {:induction false} EndedScore(ev: Evaluator, root: State, s: State, depth: nat, ply: nat)
    requires Node(root, s, ply) && Decided(s) && Ends(s, depth)
    ensures var v := Value(ev, s, depth, ply); v == 0 || v >= 999_000 || v <= -999_000
    decreases depth
  {
    hide StaticScore, TerminalScore, LegalMoves, Lawful, Node, WinsFor, Decided, MoveValue, IsBest;
    NodeIsShaped(root, s, ply);
    if s.terminal != Ongoing {
      TerminalValue(ev, s, depth, ply);
      FinishedScore(s, ply);
    } else if LegalMoves(s) != [] {
      ValueIsBest(ev, s, depth, ply);
      var m := BestMove(ev, s, LegalMoves(s), depth, ply, Value(ev, s, depth, ply));
      ChildIsNode(root, s, ply, m);
      MoveValueIsNegated(ev, s, m, depth, ply);
      EndedScore(ev, root, Next(s, m), depth - 1, ply + 1);
    }
  }

  lemma BestMove(ev: Evaluator, s: State, moves: seq<Move>, depth: nat, ply: int, v: int) returns (m: Move)
    requires depth > 0 && IsBest(ev, s, moves, depth, ply, v)
    ensures m in moves && MoveValue(ev, s, m, depth, ply) == v
  {
    m :| m in moves && MoveValue(ev, s, m, depth, ply) == v;
  }

  // ---------------------------------------------------------------- what a result reports

  /** What a root result says: the score is a mate score exactly when a win or a loss is forced, with the length
      of the shortest win or the longest loss; the move starts such a win; and with neither, if every line ends
      within the depth, the score is a draw. */
  ghost predicate Reports(s: State, depth: nat, move: Move, score: int)
  {
    && depth > 0
    && (forall k: nat :: k <= 900_000 ==> (score == 1_000_000 - k <==> ShortestWin(s, k, depth)))
    && (forall k: nat :: k <= 900_000 ==> (score == -1_000_000 + k <==> LongestLoss(s, k, depth)))
    && (forall k: nat :: 0 < k <= 900_000 && ShortestWin(s, k, depth) ==> IsLost(Next(s, move), k - 1, depth - 1))
    && (Ends(s, depth) && (forall k: nat :: !CanWin(s, k, depth) && !IsLost(s, k, depth)) ==> score == 0)
  }

  lemma ResultReports(ev: Evaluator, s: State, depth: nat, move: Move, score: int)
    requires Searchable(s) && Shaped(s) && s.terminal == Ongoing && depth > 0
    requires score == Value(ev, s, depth, 0) && move in LegalMoves(s) && MoveValue(ev, s, move, depth, 0) == score
    ensures Reports(s, depth, move, score)
  {
    hide Value, LegalMoves, Searchable, MoveValue, Ends, CanWin, IsLost, Next;
    RootIsNode(s);
    hide Node;
    ValueBounds(ev, s, s, depth, 0);
    forall k: nat | k <= 900_000
      ensures score >= 1_000_000 - k <==> CanWin(s, k, depth)
      ensures score <= -1_000_000 + k <==> IsLost(s, k, depth)
      ensures k > 0 ==> (score >= 1_000_000 - k <==> IsLost(Next(s, move), k - 1, depth - 1))
    {
      ScoreTellsForced(ev, s, s, depth, 0, k);
      MoveTellsForced(ev, s, s, move, depth, 0, k);
    }
    if Ends(s, depth) {
      EndedScore(ev, s, s, depth, 0);
      assert score != 0 ==> CanWin(s, 1000, depth) || IsLost(s, 1000, depth);
    }
  }

  /** If a legal move wins at once, the score is that of a mate in one, and the move played wins at once or
      leaves the opponent without a move, which the search counts as a win. */
  lemma WinningAtOnce(s: State, depth: nat, move: Move, score: int, m: Move)
    requires Reports(s, depth, move, score) && Shaped(s) && s.terminal == Ongoing
    requires m in LegalMoves(s) && WinsFor(Next(s, m), s.sideToMove) && move in LegalMoves(s)
    ensures score == 999_999
    ensures || WinsFor(Next(s, move), s.sideToMove)
            || (Next(s, move).terminal == Ongoing && Shaped(Next(s, move)) && LegalMoves(Next(s, move)) == [])
  {
    hide LegalMoves, Next;
    NextIsDecided(s, m);
    NextIsDecided(s, move);
    assert IsLost(Next(s, m), 0, depth - 1);
    assert !CanWin(s, 0, depth) && ShortestWin(s, 1, depth);
  }

  /** If every legal move draws, the score is a draw. */
  lemma OnlyDraws(s: State, depth: nat, move: Move, score: int)
    requires Reports(s, depth, move, score) && Shaped(s) && s.terminal == Ongoing && LegalMoves(s) != []
    requires forall m :: m in LegalMoves(s) ==> Next(s, m).terminal == Draw
    ensures score == 0
  {
    hide LegalMoves, Next;
    forall m | m in LegalMoves(s)
      ensures Shaped(Next(s, m)) && !WinsFor(Next(s, m), South) && !WinsFor(Next(s, m), North)
    {
      NextIsDecided(s, m);
    }
    var first := LegalMoves(s)[0];
    assert first in LegalMoves(s);
    forall k: nat
      ensures !CanWin(s, k, depth) && !IsLost(s, k, depth)
    {
      assert k > 0 ==> !CanWin(Next(s, first), k - 1, depth - 1);
    }
    assert Ends(s, depth);
  }
}
