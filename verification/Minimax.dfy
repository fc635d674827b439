/** Plain depth-limited negamax over all legal moves: the value every search shortcut must reproduce.
 */
module Minimax {
  import opened Animals
  import opened States
  import opened Transition
  import opened MoveGeneration
  import opened Invariants
  import opened Symmetry
  import opened Evaluation
  import opened CanonicalKeys
  import opened Successors
  import opened Propagation

  /** The value of a position at a distance from the root, searched to a depth with no shortcut. */
  ghost function Value(ev: Evaluator, s: State, depth: nat, ply: int): int
    decreases depth, 1, 0
  {
    if !Shaped(s) then 0
    else if s.terminal != Ongoing then TerminalScore(s, ply)
    else if depth == 0 then StaticScore(ev, s)
    else if LegalMoves(s) == [] then -MATE_SCORE + ply
    else BestOf(ev, s, LegalMoves(s), depth, ply)
  }

  /** The value of a move for its mover. */
  ghost function MoveValue(ev: Evaluator, s: State, m: Move, depth: nat, ply: int): int
    requires depth > 0
    decreases depth, 0, 0
  {
    -Value(ev, Next(s, m), depth - 1, ply + 1)
  }

  ghost function BestOf(ev: Evaluator, s: State, moves: seq<Move>, depth: nat, ply: int): int
    requires moves != [] && depth > 0
    decreases depth, 0, |moves|
  {
    var n := |moves| - 1;
    var last := MoveValue(ev, s, moves[n], depth, ply);
    if n == 0 then last
    else
      var rest := BestOf(ev, s, moves[..n], depth, ply);
      if last > rest then last else rest
  }

  lemma {:induction false} BestIsMaximum(ev: Evaluator, s: State, moves: seq<Move>, depth: nat, ply: int)
    requires moves != [] && depth > 0
    ensures forall m :: m in moves ==> MoveValue(ev, s, m, depth, ply) <= BestOf(ev, s, moves, depth, ply)
    ensures exists m :: m in moves && MoveValue(ev, s, m, depth, ply) == BestOf(ev, s, moves, depth, ply)
  {
    hide MoveValue;
    var n := |moves| - 1;
    if n > 0 {
      BestIsMaximum(ev, s, moves[..n], depth, ply);
      var m :| m in moves[..n] && MoveValue(ev, s, m, depth, ply) == BestOf(ev, s, moves[..n], depth, ply);
      assert m in moves && moves[n] in moves;
    } else {
      assert moves[0] in moves;
    }
  }

  /** What it means for v to be the maximum over a list of moves. */
  ghost predicate IsBest(ev: Evaluator, s: State, moves: seq<Move>, depth: nat, ply: int, v: int)
    requires depth > 0
  {
    && (forall m :: m in moves ==> MoveValue(ev, s, m, depth, ply) <= v)
    && exists m :: m in moves && MoveValue(ev, s, m, depth, ply) == v
  }

  lemma ValueIsBest(ev: Evaluator, s: State, depth: nat, ply: int)
    requires Shaped(s) && s.terminal == Ongoing && depth > 0 && LegalMoves(s) != []
    ensures IsBest(ev, s, LegalMoves(s), depth, ply, Value(ev, s, depth, ply))
  {
    hide LegalMoves, MoveValue;
    BestIsMaximum(ev, s, LegalMoves(s), depth, ply);
  }

  // ---------------------------------------------------------------- related positions have one value

  /** Search value does not see names, hand slots or orientation. */
  lemma {:induction false} RelatedValue(ev: Evaluator, i: Iso, s: State, t: State, depth: nat, ply: int)
    requires Related(i, s, t)
    ensures Value(ev, s, depth, ply) == Value(ev, t, depth, ply)
    decreases depth, 2
  {
    hide StaticScore, TerminalScore, LegalMoves, PiecesMatch, Agree, IsBest;
    RelatedIsShaped(i, s, t);
    if s.terminal != Ongoing {
      TerminalScoreMatches(i, s, t, ply);
    } else if depth == 0 {
      EvaluationMatches(ev, i, s, t);
    } else {
      InverseRelated(i, s, t);
      OneSided(ev, i, s, t, depth, ply);
      OneSided(ev, i.Inverse(), t, s, depth, ply);
      if LegalMoves(s) != [] && LegalMoves(t) != [] {
        ValueIsBest(ev, s, depth, ply);
        ValueIsBest(ev, t, depth, ply);
        SameBest(ev, s, t, depth, ply);
      }
    }
  }

  /** Every move of s is matched in t by a move of the same value. */
  ghost predicate Matched(ev: Evaluator, s: State, t: State, depth: nat, ply: int)
    requires Shaped(s) && Shaped(t) && depth > 0
  {
    forall m :: m in LegalMoves(s) ==>
      exists n :: n in LegalMoves(t) && MoveValue(ev, s, m, depth, ply) == MoveValue(ev, t, n, depth, ply)
  }

  lemma {:induction false} OneSided(ev: Evaluator, i: Iso, s: State, t: State, depth: nat, ply: int)
    requires Related(i, s, t) && depth > 0
    ensures Matched(ev, s, t, depth, ply)
    ensures LegalMoves(s) != [] ==> LegalMoves(t) != []
    decreases depth, 1
  {
    hide LegalMoves, Related, Value;
    RelatedIsShaped(i, s, t);
    forall m | m in LegalMoves(s)
      ensures exists n :: n in LegalMoves(t) && MoveValue(ev, s, m, depth, ply) == MoveValue(ev, t, n, depth, ply)
    {
      var n := MatchingMove(ev, i, s, t, m, depth, ply);
    }
    if LegalMoves(s) != [] {
      assert LegalMoves(s)[0] in LegalMoves(s);
    }
  }

  lemma {:induction false} MatchingMove(ev: Evaluator, i: Iso, s: State, t: State, m: Move, depth: nat, ply: int)
    returns (n: Move)
    requires Related(i, s, t) && depth > 0 && m in LegalMoves(s)
    ensures n in LegalMoves(t) && MoveValue(ev, s, m, depth, ply) == MoveValue(ev, t, n, depth, ply)
    ensures |i.to| == PIECE_COUNT && |t.pos| == PIECE_COUNT
    ensures 0 <= m.piece < PIECE_COUNT ==> 0 <= i.to[m.piece] < PIECE_COUNT
    ensures n == Image(i, t, m)
    decreases depth, 0
  {
    hide LegalMoves, Related, Value, Image, Apply;
    RelatedIsShaped(i, s, t);
    n := RelatedImage(i, s, t, m);
    LegalMovesMatch(i, s, t, m);
    LegalStep(s, m);
    LegalStep(t, n);
    RelatedValue(ev, i, Next(s, m), Next(t, n), depth - 1, ply + 1);
  }

  lemma RelatedImage(i: Iso, s: State, t: State, m: Move) returns (n: Move)
    requires Related(i, s, t)
    ensures |i.to| == PIECE_COUNT && |t.pos| == PIECE_COUNT
    ensures 0 <= m.piece < PIECE_COUNT ==> 0 <= i.to[m.piece] < PIECE_COUNT
    ensures n == Image(i, t, m)
  {
    n := Image(i, t, m);
  }

  lemma LegalStep(s: State, m: Move)
    requires Agree(s) && m in LegalMoves(s)
    ensures Apply(s, m) == Some(Next(s, m)) && Lawful(Next(s, m)) && m.Valid()
  {
    hide Apply, LegalMoves, CanReach, Satisfiable;
    LegalMember(s, m);
    ApplyKeepsLawful(s, m, Next(s, m));
  }

  lemma NoBetter(ev: Evaluator, s: State, t: State, depth: nat, ply: int)
    requires Shaped(s) && Shaped(t) && depth > 0 && Matched(ev, s, t, depth, ply)
    requires IsBest(ev, s, LegalMoves(s), depth, ply, Value(ev, s, depth, ply))
    requires IsBest(ev, t, LegalMoves(t), depth, ply, Value(ev, t, depth, ply))
    ensures Value(ev, s, depth, ply) <= Value(ev, t, depth, ply)
  {
    hide MoveValue, LegalMoves, Value;
    var m :| m in LegalMoves(s) && MoveValue(ev, s, m, depth, ply) == Value(ev, s, depth, ply);
    var n :| n in LegalMoves(t) && MoveValue(ev, s, m, depth, ply) == MoveValue(ev, t, n, depth, ply);
  }

  lemma SameBest(ev: Evaluator, s: State, t: State, depth: nat, ply: int)
    requires Shaped(s) && Shaped(t) && depth > 0
    requires Matched(ev, s, t, depth, ply) && Matched(ev, t, s, depth, ply)
    requires IsBest(ev, s, LegalMoves(s), depth, ply, Value(ev, s, depth, ply))
    requires IsBest(ev, t, LegalMoves(t), depth, ply, Value(ev, t, depth, ply))
    ensures Value(ev, s, depth, ply) == Value(ev, t, depth, ply)
  {
    hide MoveValue, LegalMoves, Value, Matched, IsBest;
    NoBetter(ev, s, t, depth, ply);
    NoBetter(ev, t, s, depth, ply);
  }

  // ---------------------------------------------------------------- reduction keeps the value

  /** Positions with one canonical key have one value. */
  lemma SameKeySameValue(ev: Evaluator, s: State, t: State, depth: nat, ply: int)
    requires Lawful(s) && Lawful(t) && KeyOf(s) == KeyOf(t)
    ensures Value(ev, s, depth, ply) == Value(ev, t, depth, ply)
  {
    hide Lawful, KeyOf, Value;
    var i := SharedKeyRelates(s, t);
    RelatedValue(ev, i, s, t, depth, ply);
  }

  lemma SameKeySameMoveValue(ev: Evaluator, s: State, m: Move, n: Move, depth: nat, ply: int)
    requires Agree(s) && depth > 0 && m in LegalMoves(s) && n in LegalMoves(s)
    requires LeadsTo(s, m) == LeadsTo(s, n)
    ensures MoveValue(ev, s, m, depth, ply) == MoveValue(ev, s, n, depth, ply)
  {
    hide LegalMoves, Apply, Value, KeyOf;
    LegalStep(s, m);
    LegalStep(s, n);
    SameKeySameValue(ev, Next(s, m), Next(s, n), depth - 1, ply + 1);
  }

  lemma KeptIsBest(ev: Evaluator, s: State, kept: seq<Move>, depth: nat, ply: int, v: int)
    requires Agree(s) && depth > 0 && Covers(s, LegalMoves(s), kept)
    requires IsBest(ev, s, LegalMoves(s), depth, ply, v)
    ensures kept != [] && IsBest(ev, s, kept, depth, ply, v)
  {
    hide LegalMoves, MoveValue, LeadsTo, Covers;
    var m :| m in LegalMoves(s) && MoveValue(ev, s, m, depth, ply) == v;
    var k := CoveredBy(s, LegalMoves(s), kept, m);
    KeptAreLegal(s, LegalMoves(s), kept);
    SameKeySameMoveValue(ev, s, m, k, depth, ply);
  }

  lemma CoveredBy(s: State, legal: seq<Move>, kept: seq<Move>, m: Move) returns (k: Move)
    requires Covers(s, legal, kept) && m in legal
    ensures k in kept && k in legal && LeadsTo(s, k) == LeadsTo(s, m)
  {
    hide LeadsTo;
    k :| k in kept && LeadsTo(s, k) == LeadsTo(s, m);
  }

  lemma KeptAreLegal(s: State, legal: seq<Move>, kept: seq<Move>)
    requires Covers(s, legal, kept)
    ensures forall k :: k in kept ==> k in legal
  {
  }

  lemma BestIsUnique(ev: Evaluator, s: State, moves: seq<Move>, depth: nat, ply: int, v: int)
    requires depth > 0 && moves != [] && IsBest(ev, s, moves, depth, ply, v)
    ensures BestOf(ev, s, moves, depth, ply) == v
  {
    hide MoveValue;
    BestIsMaximum(ev, s, moves, depth, ply);
  }

  /** At every depth the best kept move is worth the best legal move, whichever gates let the reduction
      through: its value is the value of the position. */
  lemma ReductionKeepsValue(ev: Evaluator, s: State, kept: seq<Move>, depth: nat, ply: int)
    requires Agree(s) && s.terminal == Ongoing && depth > 0
    requires LegalMoves(s) != [] && Covers(s, LegalMoves(s), kept)
    ensures kept != [] && IsBest(ev, s, kept, depth, ply, Value(ev, s, depth, ply))
    ensures BestOf(ev, s, kept, depth, ply) == Value(ev, s, depth, ply)
  {
    hide Covers, IsBest, LegalMoves;
    ValueIsBest(ev, s, depth, ply);
    KeptIsBest(ev, s, kept, depth, ply, Value(ev, s, depth, ply));
    BestIsUnique(ev, s, kept, depth, ply, Value(ev, s, depth, ply));
  }
}
