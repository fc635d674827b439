/** A whole turn of the contest protocol on the engine's side: read the observation, search, answer. The
    answer is a number the referee allows, and names a best move of the referee's own position.
 */
module ProtocolTurns {
  import opened Animals
  import opened States
  import opened Propagation
  import opened Propagators
  import opened Rules
  import opened MoveGeneration
  import opened Invariants
  import opened Symmetry
  import opened Evaluation
  import opened Minimax
  import opened SearchTree
  import opened ForcedWins
  import opened Search
  import opened Actions
  import opened Observations
  import opened Boundary
  import opened EvaluatorChoice

  predicate Allowed(mask: seq<bool>, action: int) {
    0 <= action < |mask| && mask[action]
  }

  /** The first move of a list whose number is allowed, or -1. */
  function FirstAllowed(mask: seq<bool>, moves: seq<Move>): int {
    if moves == [] then -1
    else if Allowed(mask, EncodeActionMove(moves[0])) then EncodeActionMove(moves[0])
    else FirstAllowed(mask, moves[1..])
  }

  /** It is the number of the first listed move whose number is allowed, and negative if there is none. */
  lemma {:induction false} FirstAllowedInWords(mask: seq<bool>, moves: seq<Move>)
    ensures var r := FirstAllowed(mask, moves);
            if r < 0 then forall k :: 0 <= k < |moves| ==> !Allowed(mask, EncodeActionMove(moves[k]))
            else exists k :: 0 <= k < |moves| && r == EncodeActionMove(moves[k]) && Allowed(mask, r)
                   && forall j :: 0 <= j < k ==> !Allowed(mask, EncodeActionMove(moves[j]))
  {
    hide EncodeActionMove;
    if moves != [] && !Allowed(mask, EncodeActionMove(moves[0])) {
      var rest := moves[1..];
      FirstAllowedInWords(mask, rest);
      if FirstAllowed(mask, rest) >= 0 {
        var k :| 0 <= k < |rest| && FirstAllowed(mask, rest) == EncodeActionMove(rest[k])
                 && Allowed(mask, FirstAllowed(mask, rest))
                 && forall j :: 0 <= j < k ==> !Allowed(mask, EncodeActionMove(rest[j]));
        assert moves[k + 1] == rest[k] && forall j :: 1 <= j < k + 1 ==> moves[j] == rest[j - 1];
      }
    }
  }

  /** The search found a move the mask allows. */
  predicate Serves(mask: seq<bool>, result: SearchResult) {
    result.hasMove && Allowed(mask, EncodeActionMove(result.bestMove))
  }

  /** The search result if the mask allows it, else the first legal move it allows, else any number it
      allows; none is an error. */
  method ChooseAction(t: State, result: SearchResult, mask: seq<bool>, rules: RuleTables) returns (answer: Option<int>)
    requires Shaped(t) && ValidTables(rules)
    ensures answer.Some? ==> Allowed(mask, answer.value)
    ensures answer.None? ==> forall a :: !Allowed(mask, a)
    ensures Serves(mask, result) ==> answer == Some(EncodeActionMove(result.bestMove))
    ensures !Serves(mask, result) && FirstAllowed(mask, LegalMoves(t)) >= 0 ==>
              answer == Some(FirstAllowed(mask, LegalMoves(t)))
    ensures answer.Some? && !Serves(mask, result) && FirstAllowed(mask, LegalMoves(t)) < 0 ==>
              forall a :: 0 <= a < answer.value ==> !Allowed(mask, a)
  {
    hide LegalMoves, EncodeActionMove, Shaped;
    var action := if result.hasMove then EncodeActionMove(result.bestMove) else -1;
    if Allowed(mask, action) {
      return Some(action);
    }
    var moves := GenerateLegalMoves(t, LineageLut, rules);
    for i := 0 to |moves|
      invariant FirstAllowed(mask, moves) == FirstAllowed(mask, moves[i..])
    {
      if Allowed(mask, EncodeActionMove(moves[i])) {
        return Some(EncodeActionMove(moves[i]));
      }
      assert moves[i..][1..] == moves[i + 1..];
    }
    for candidate := 0 to |mask|
      invariant forall a :: 0 <= a < candidate ==> !mask[a]
    {
      if mask[candidate] {
        return Some(candidate);
      }
    }
    answer := None;
  }

  /** The mask the referee sends: exactly its legal numbers. */
  ghost predicate IsMaskOf(mask: seq<bool>, s: State)
    requires Shaped(s)
  {
    |mask| == ACTION_COUNT && forall a :: Allowed(mask, a) <==> a in ActionSet(s)
  }

  /** A best move of the engine's copy is a best move of the referee's position. */
  lemma CopiedResult(ev: Evaluator, i: Iso, s: State, t: State, depth: nat, n: Move, score: int)
    requires SameView(i, s, t) && t.sideToMove == South && depth > 0 && Shaped(s) && Shaped(t)
    requires IsRootResult(ev, t, depth, n, score)
    ensures IsRootResult(ev, s, depth, MoveOf(s, EncodeActionMove(n)), score)
  {
    hide LegalMoves, SameView, Value, MoveValue, Image, MoveOf, Shaped;
    ViewIsRelated(i, s, t);
    InverseView(i, s, t);
    ViewIsRelated(i.Inverse(), t, s);
    RelatedValue(ev, i, s, t, depth, 0);
    var m := MatchingMove(ev, i.Inverse(), t, s, n, depth, 0);
    EngineReply(i, s, t, n);
  }

  lemma ViewIsRelated(i: Iso, s: State, t: State)
    requires SameView(i, s, t)
    ensures Related(i, s, t)
  {
  }

  lemma ResultInPlay(ev: Evaluator, s: State, depth: nat, m: Move, score: int)
    requires Playable(s) && Shaped(s) && depth > 0 && IsRootResult(ev, s, depth, m, score)
    ensures IsRootResult(Reference, s, depth, m, score)
  {
    hide LegalMoves, Playable, Value, MoveValue;
    if ev.Optimized? {
      SameValueInPlay(s, depth, 0);
      InGameStep(s, m);
      SameValueInPlay(Next(s, m), depth - 1, 1);
      SameMoveValue(s, m, depth, 0);
    }
  }

  /** A request answered. The referee's state is ghost: the engine sees only the observation, the turn and
      the mask. None stands for the protocol error. */
  method AnswerRequest(engine: AlphaBetaEngine, e: seq<int>, turn: nat, mask: seq<bool>, request: SearchOptions,
                       ghost s: State)
    returns (answer: Option<int>)
    requires engine.Valid() && Playable(s) && Shaped(s) && Shows(e, s) && turn == s.turn && IsMaskOf(mask, s)
    requires request.ttClearEachMove || forall i :: 0 <= i < engine.table.Length ==> engine.table[i] == EMPTY_ENTRY
    requires forall t :: Decodes(e, turn, t) ==> NoCollision(engine.zobrist, t)
    modifies engine, engine.table, engine.movePool, engine.scratch
    ensures answer.Some? <==> LegalMoves(s) != []
    ensures answer.Some? ==> answer.value in ActionSet(s) && MoveOf(s, answer.value) in LegalMoves(s)
    ensures answer.Some? && engine.Undisturbed(request) ==>
              var depth := if request.maxDepth > 1 then request.maxDepth else 1;
              exists score ::
                && IsRootResult(Reference, s, depth, MoveOf(s, answer.value), score)
                && Reports(s, depth, MoveOf(s, answer.value), score)
  {
    hide Reports, Shows, Decodes, WellFormed, Playable, LegalMoves, SameView, NoCollision, IsRootResult, MoveOf,
         ActionSet, Shaped, Searchable, StaticScore, TerminalScore, EncodeActionMove;
    PlayableIsAgreed(s);
    SatisfiableWhenCoherent(s);
    ShownIsWellFormed(e, s);
    var r := StateFromObservation(e, turn, LineageLut, engine.rules.lineage);
    if r.Err? {
      ghost var raw :| Reads(e, raw) && !Satisfiable(raw.origin, raw.mask);
      ShownIsAccepted(e, s, raw);
      assert false;
    } else {
      var t := r.value;
      ghost var i := ObservationIsFaithful(e, s, t);
      PlayableIsAgreed(t);
      PlayableIsSearchable(t);
      PlayableIsSearchable(s);
      SameActions(i, s, t);
      NumbersMeanMoves(s);
      NumbersMeanMoves(t);
      var result := engine.FindBestMove(t, request);
      answer := ChooseAction(t, result, mask, engine.rules);
      if LegalMoves(t) != [] {
        BestIsLegal(EvaluatorOf(request), t, request, result);
        EngineReply(i, s, t, result.bestMove);
        if engine.Undisturbed(request) {
          CopiedResult(EvaluatorOf(request), i, s, t, LastDepth(request), result.bestMove, result.score);
          ResultInPlay(EvaluatorOf(request), s, LastDepth(request), MoveOf(s, answer.value), result.score);
          RootReports(Reference, s, LastDepth(request), MoveOf(s, answer.value), result.score);
        }
      }
      if answer.Some? {
        ActionSetMember(s, answer.value);
      }
    }
  }

  lemma BestIsLegal(ev: Evaluator, t: State, request: SearchOptions, result: SearchResult)
    requires Shaped(t) && LegalMoves(t) != [] && Answers(ev, t, request, result)
    ensures result.bestMove in LegalMoves(t)
  {
    hide LegalMoves, Value, MoveValue, StaticScore;
  }

  /** There are legal numbers exactly when there are legal moves. */
  lemma NumbersMeanMoves(s: State)
    requires Shaped(s)
    ensures LegalMoves(s) == [] <==> ActionSet(s) == {}
  {
    hide LegalMoves, PublicAction;
    if LegalMoves(s) != [] {
      assert LegalMoves(s)[0] in LegalMoves(s);
      assert PublicAction(LegalMoves(s)[0], s.sideToMove) in ActionSet(s);
    }
  }
}
