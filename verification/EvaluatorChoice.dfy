/** In play it does not matter which evaluator a search uses: the values agree at every depth. */
module EvaluatorChoice {
  import opened States
  import opened Transition
  import opened MoveGeneration
  import opened Invariants
  import opened Outcomes
  import opened Evaluation
  import opened Evaluators
  import opened Minimax

  /** The positions met from play on: play itself or a finished game. */
  ghost predicate InGame(s: State)
  {
    Shaped(s) && (s.terminal == Ongoing ==> Playable(s))
  }

  lemma InGameStep(s: State, m: Move)
    requires Playable(s) && Shaped(s) && m in LegalMoves(s)
    ensures InGame(Next(s, m))
  {
    hide LegalMoves, Apply, IsPseudoLegal, Playable, Custody, Coherent;
    LegalMember(s, m);
    StepFromPlay(s, m, Next(s, m));
    CoherentIsShaped(Next(s, m));
  }

  lemma {:induction false} SameValueInPlay(s: State, depth: nat, ply: int)
    requires InGame(s)
    ensures Value(Optimized, s, depth, ply) == Value(Reference, s, depth, ply)
    decreases depth
  {
    hide StaticScore, LegalMoves, Coherent, Custody, HasSurvivingTry, MoveValue, IsBest;
    if s.terminal != Ongoing {
    } else if depth == 0 {
      EvaluatorsAgree(s);
    } else if LegalMoves(s) != [] {
      ValueIsBest(Optimized, s, depth, ply);
      ValueIsBest(Reference, s, depth, ply);
      forall m | m in LegalMoves(s)
        ensures MoveValue(Optimized, s, m, depth, ply) == MoveValue(Reference, s, m, depth, ply)
      {
        InGameStep(s, m);
        SameValueInPlay(Next(s, m), depth - 1, ply + 1);
        SameMoveValue(s, m, depth, ply);
      }
      SameMaximum(s, LegalMoves(s), depth, ply, Value(Optimized, s, depth, ply), Value(Reference, s, depth, ply));
    }
  }

  lemma SameMoveValue(s: State, m: Move, depth: nat, ply: int)
    requires depth > 0
    requires Value(Optimized, Next(s, m), depth - 1, ply + 1) == Value(Reference, Next(s, m), depth - 1, ply + 1)
    ensures MoveValue(Optimized, s, m, depth, ply) == MoveValue(Reference, s, m, depth, ply)
  {
    hide Value, Next;
  }

  lemma SameMaximum(s: State, moves: seq<Move>, depth: nat, ply: int, v: int, w: int)
    requires depth > 0 && IsBest(Optimized, s, moves, depth, ply, v) && IsBest(Reference, s, moves, depth, ply, w)
    requires forall m :: m in moves ==> MoveValue(Optimized, s, m, depth, ply) == MoveValue(Reference, s, m, depth, ply)
    ensures v == w
  {
    hide MoveValue;
    var m :| m in moves && MoveValue(Optimized, s, m, depth, ply) == v;
    var n :| n in moves && MoveValue(Reference, s, n, depth, ply) == w;
  }
}
