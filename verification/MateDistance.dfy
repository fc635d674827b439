/** Mate scores are final: a mate seen at some depth is the value at every greater depth, so an
    iteration that stops at a mate score has lost nothing.
 */
module MateDistance {
  import opened Animals
  import opened States
  import opened Transition
  import opened MoveGeneration
  import opened Invariants
  import opened Evaluation
  import opened Minimax
  import opened SearchTree

  const HEURISTIC_LIMIT := 23_000

  /** The value at one depth against the value at a greater one: a mate is at most depth plies away and
      stays as it is; without a mate, any mate found later is at least depth plies away. */
  predicate Foresees(v: int, deeper: int, horizon: int) {
    && (v > HEURISTIC_LIMIT ==> v >= MATE_SCORE - horizon && deeper == v)
    && (v < -HEURISTIC_LIMIT ==> v <= -MATE_SCORE + horizon && deeper == v)
    && (-HEURISTIC_LIMIT <= v <= HEURISTIC_LIMIT ==> -FirstUnseen(horizon) <= deeper <= FirstUnseen(horizon))
  }

  /** The best score a line longer than the horizon can have. */
  function FirstUnseen(horizon: int): int {
    if MATE_SCORE - horizon > HEURISTIC_LIMIT then MATE_SCORE - horizon else HEURISTIC_LIMIT
  }

  lemma {:induction false} MateIsFinal(ev: Evaluator, root: State, s: State, depth: nat, deeper: nat, ply: nat)
    requires Node(root, s, ply) && depth <= deeper
    ensures Foresees(Value(ev, s, depth, ply), Value(ev, s, deeper, ply), ply + depth)
    decreases depth, 1
  {
    hide StaticScore, LegalMoves, Searchable, IsBest, Foresees, MoveValue, Node;
    NodeIsShaped(root, s, ply);
    if s.terminal != Ongoing {
      TerminalForesees(ev, s, depth, deeper, ply);
    } else if depth == 0 {
      LeafForesees(ev, root, s, deeper, ply);
    } else if LegalMoves(s) == [] {
      BlockedForesees(ev, s, depth, deeper, ply);
    } else {
      ValueIsBest(ev, s, depth, ply);
      ValueIsBest(ev, s, deeper, ply);
      forall m | m in LegalMoves(s)
        ensures Foresees(MoveValue(ev, s, m, depth, ply), MoveValue(ev, s, m, deeper, ply), ply + depth)
      {
        MoveForesees(ev, root, s, m, depth, deeper, ply);
      }
      BestForesees(ev, s, LegalMoves(s), depth, deeper, ply, Value(ev, s, depth, ply), Value(ev, s, deeper, ply));
    }
  }

  lemma {:induction false} MoveForesees(ev: Evaluator, root: State, s: State, m: Move, depth: nat, deeper: nat,
                                        ply: nat)
    requires Node(root, s, ply) && Shaped(s) && m in LegalMoves(s) && 0 < depth <= deeper
    ensures Foresees(MoveValue(ev, s, m, depth, ply), MoveValue(ev, s, m, deeper, ply), ply + depth)
    decreases depth, 0
  {
    hide LegalMoves, Node, Value, MoveValue, Next, Apply, Shaped;
    assert Steps(s, m, Next(s, m));
    ChildNode(root, s, ply, m, Next(s, m));
    MateIsFinal(ev, root, Next(s, m), depth - 1, deeper - 1, ply + 1);
    MoveValueIsNegated(ev, s, m, depth, ply);
    MoveValueIsNegated(ev, s, m, deeper, ply);
  }

  lemma TerminalForesees(ev: Evaluator, s: State, depth: nat, deeper: nat, ply: nat)
    requires Shaped(s) && s.terminal != Ongoing && depth <= deeper && ply <= TURN_LIMIT
    ensures Foresees(Value(ev, s, depth, ply), Value(ev, s, deeper, ply), ply + depth)
  {
    hide LegalMoves, StaticScore, Shaped;
  }

  lemma LeafForesees(ev: Evaluator, root: State, s: State, deeper: nat, ply: nat)
    requires Node(root, s, ply) && Shaped(s) && s.terminal == Ongoing
    ensures Foresees(Value(ev, s, 0, ply), Value(ev, s, deeper, ply), ply)
  {
    hide StaticScore, LegalMoves, Searchable, Node;
    LeafValue(ev, s, ply);
    EvaluationBounds(ev, s);
    ValueBounds(ev, root, s, deeper, ply);
  }

  lemma BlockedForesees(ev: Evaluator, s: State, depth: nat, deeper: nat, ply: nat)
    requires Shaped(s) && s.terminal == Ongoing && LegalMoves(s) == [] && 0 < depth <= deeper && ply <= TURN_LIMIT
    ensures Foresees(Value(ev, s, depth, ply), Value(ev, s, deeper, ply), ply + depth)
  {
    hide LegalMoves, StaticScore, Shaped;
  }

  /** The maximum over moves inherits the relation. */
  lemma BestForesees(ev: Evaluator, s: State, moves: seq<Move>, depth: nat, deeper: nat, ply: nat, v: int, v': int)
    requires 0 < depth <= deeper && IsBest(ev, s, moves, depth, ply, v) && IsBest(ev, s, moves, deeper, ply, v')
    requires forall m :: m in moves ==>
               Foresees(MoveValue(ev, s, m, depth, ply), MoveValue(ev, s, m, deeper, ply), ply + depth)
    ensures Foresees(v, v', ply + depth)
  {
    hide MoveValue;
    var m :| m in moves && MoveValue(ev, s, m, depth, ply) == v;
    var n :| n in moves && MoveValue(ev, s, n, deeper, ply) == v';
    assert Foresees(v, MoveValue(ev, s, m, deeper, ply), ply + depth);
    assert Foresees(MoveValue(ev, s, n, depth, ply), v', ply + depth);
  }
}
